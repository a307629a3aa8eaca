/**
 * What the administrator's record table derives from the records it holds:
 * the operator and date filters, and the choices offered in their two
 * drop-down lists.
 */
module AdminPanel {
  import opened Wrappers
  import opened Builtins
  import opened Sequences

  /**
   * A document of the `productionRecords` collection with its id. A field
   * the document lacks reads as the empty string, which is falsy like
   * `undefined`.
   */
  datatype ProductionRecord = ProductionRecord(
    id: string,
    operarioId: string,
    operarioEmail: string,
    orden: string,
    sector: string,
    operacion: string,
    fecha: string,
    horarioInicio: Option<string>,
    horarioFin: Option<string>,
    modeloProducto: string,
    cantidad: JsNumber,
    puntos: JsNumber,
    observaciones: string,
    timestamp: string)

  // ---------------------------------------------------------------------
  // The record filter
  // ---------------------------------------------------------------------

  /** A record passes when it matches each selector that is not empty. */
  predicate Passes(r: ProductionRecord, operarioId: string, fecha: string) {
    (operarioId == "" || r.operarioId == operarioId) && (fecha == "" || r.fecha == fecha)
  }

  /** The records the table shows for the selected operator and date. */
  function FilterRecords(rs: seq<ProductionRecord>, operarioId: string, fecha: string): (shown: seq<ProductionRecord>)
    ensures IsSubsequence(shown, rs)
    ensures forall r :: r in shown ==> Passes(r, operarioId, fecha)
    ensures forall r :: multiset(shown)[r] == if Passes(r, operarioId, fecha) then multiset(rs)[r] else 0
  {
    Filter(rs, r => Passes(r, operarioId, fecha))
  }

  /** With both selectors on "any" the table shows every record, in order. */
  lemma FilterNothingSelected(rs: seq<ProductionRecord>)
    ensures FilterRecords(rs, "", "") == rs
  {
    FilterKeepsAll(rs, r => Passes(r, "", ""));
  }

  /** Filtering by operator, then by date, is the combined filter. */
  lemma FilterOperatorThenDate(rs: seq<ProductionRecord>, operarioId: string, fecha: string)
    ensures FilterRecords(FilterRecords(rs, operarioId, ""), "", fecha) == FilterRecords(rs, operarioId, fecha)
  {
    FilterFilter(rs, r => Passes(r, operarioId, ""), r => Passes(r, "", fecha), r => Passes(r, operarioId, fecha));
  }

  /** Filtering by date, then by operator, is the combined filter too. */
  lemma FilterDateThenOperator(rs: seq<ProductionRecord>, operarioId: string, fecha: string)
    ensures FilterRecords(FilterRecords(rs, "", fecha), operarioId, "") == FilterRecords(rs, operarioId, fecha)
  {
    FilterFilter(rs, r => Passes(r, "", fecha), r => Passes(r, operarioId, ""), r => Passes(r, operarioId, fecha));
  }

  // ---------------------------------------------------------------------
  // The operator drop-down
  // ---------------------------------------------------------------------

  function OperatorIdsOf(rs: seq<ProductionRecord>): (ids: seq<string>)
    ensures |ids| == |rs| && forall k :: 0 <= k < |rs| ==> ids[k] == rs[k].operarioId
  {
    seq(|rs|, k requires 0 <= k < |rs| => rs[k].operarioId)
  }

  /** `filter(Boolean)` on strings: the empty ones go. */
  function NonEmpty(s: seq<string>): (r: seq<string>)
    ensures forall x :: x in r <==> x in s && x != ""
    ensures forall x :: multiset(r)[x] == if x != "" then multiset(s)[x] else 0
    ensures IsSubsequence(r, s)
  {
    Filter(s, x => x != "")
  }

  /**
   * The distinct non-empty operator ids, as
   * `Array.from(new Set(records.map(r => r.operarioId))).filter(Boolean)`.
   */
  function OperatorIds(rs: seq<ProductionRecord>): (ids: seq<string>)
    ensures NoDuplicates(ids)
    ensures forall id :: id in ids <==> id != "" && exists k :: 0 <= k < |rs| && rs[k].operarioId == id
    ensures forall i, j :: 0 <= i < j < |ids| ==> IndexOf(OperatorIdsOf(rs), ids[i]) < IndexOf(OperatorIdsOf(rs), ids[j])
  {
    var all := OperatorIdsOf(rs);
    var d := Distinct(all);
    var ids := NonEmpty(d);
    DistinctFirstSeenOrder(all);
    SubsequenceKeepsFirstSeenOrder(ids, d, all);
    assert NoDuplicates(ids) by {
      NoDuplicatesMultiset(d);
      NoDuplicatesMultiset(ids);
    }
    assert forall id :: id in all <==> exists k :: 0 <= k < |rs| && rs[k].operarioId == id by {
      forall id | id in all ensures exists k :: 0 <= k < |rs| && rs[k].operarioId == id {
        var k :| 0 <= k < |all| && all[k] == id;
      }
    }
    ids
  }

  /** An operator in the drop-down: its id and the label shown for it. */
  datatype Operator = Operator(id: string, email: string)

  predicate HasEmailFor(r: ProductionRecord, id: string) {
    r.operarioId == id && r.operarioEmail != ""
  }

  /** The email of the first record of this operator that has one, else the id itself. */
  function OperatorLabel(rs: seq<ProductionRecord>, id: string): (shown: string)
    ensures (forall k :: 0 <= k < |rs| ==> !HasEmailFor(rs[k], id)) ==> shown == id
    ensures forall k :: 0 <= k < |rs| && HasEmailFor(rs[k], id) && (forall j :: 0 <= j < k ==> !HasEmailFor(rs[j], id))
              ==> shown == rs[k].operarioEmail
  {
    match Find(rs, r => HasEmailFor(r, id))
    case Some(k) => rs[k].operarioEmail
    case None => id
  }

  /** The operator drop-down: one entry per distinct id, labelled. */
  function Operators(rs: seq<ProductionRecord>): (ops: seq<Operator>)
    ensures |ops| == |OperatorIds(rs)|
    ensures forall i :: 0 <= i < |ops| ==> ops[i].id == OperatorIds(rs)[i]
    ensures forall i :: 0 <= i < |ops| ==> ops[i].email == OperatorLabel(rs, ops[i].id)
  {
    var ids := OperatorIds(rs);
    seq(|ids|, i requires 0 <= i < |ids| => Operator(ids[i], OperatorLabel(rs, ids[i])))
  }

  /** A label never comes out empty: it is an email, or else a non-empty id. */
  lemma OperatorLabelsNonEmpty(rs: seq<ProductionRecord>)
    ensures forall op :: op in Operators(rs) ==> op.id != "" && op.email != ""
  {
    var ops := Operators(rs);
    forall op | op in ops ensures op.id != "" && op.email != "" {
      var i :| 0 <= i < |ops| && ops[i] == op;
      assert op.id in OperatorIds(rs);
      match Find(rs, r => HasEmailFor(r, op.id))
      case Some(k) =>
      case None =>
    }
  }

  // ---------------------------------------------------------------------
  // The date drop-down
  // ---------------------------------------------------------------------

  function DatesOf(rs: seq<ProductionRecord>): (ds: seq<string>)
    ensures |ds| == |rs| && forall k :: 0 <= k < |rs| ==> ds[k] == rs[k].fecha
  {
    seq(|rs|, k requires 0 <= k < |rs| => rs[k].fecha)
  }

  /**
   * The distinct non-empty dates, latest first, as
   * `Array.from(new Set(records.map(r => r.fecha).filter(Boolean))).sort((a, b) => b.localeCompare(a))`.
   */
  function UniqueDates(rs: seq<ProductionRecord>): (dates: seq<string>)
    ensures StrictlyDescending(dates)
    ensures NoDuplicates(dates)
    ensures forall d :: d in dates <==> d != "" && exists k :: 0 <= k < |rs| && rs[k].fecha == d
  {
    var d := Distinct(NonEmpty(DatesOf(rs)));
    SortDistinct(d);
    DatesOfMembers(rs);
    SortDescending(d)
  }

  lemma DatesOfMembers(rs: seq<ProductionRecord>)
    ensures forall x :: x in DatesOf(rs) <==> exists k :: 0 <= k < |rs| && rs[k].fecha == x
  {
    var all := DatesOf(rs);
    forall x | x in all ensures exists k :: 0 <= k < |rs| && rs[k].fecha == x {
      var k :| 0 <= k < |all| && all[k] == x;
    }
  }

  /** Sorting a list without duplicates gives a strictly descending list of the same elements. */
  lemma SortDistinct(d: seq<string>)
    requires NoDuplicates(d)
    ensures StrictlyDescending(SortDescending(d)) && NoDuplicates(SortDescending(d))
    ensures forall x :: x in SortDescending(d) <==> x in d
  {
    var dates := SortDescending(d);
    SortDescendingStrict(d);
    NoDuplicatesMultiset(d);
    NoDuplicatesMultiset(dates);
    forall x ensures x in dates <==> x in d {
      assert x in dates <==> x in multiset(dates);
      assert x in d <==> x in multiset(d);
    }
  }

  /**
   * The date list does not depend on how the sort is carried out: any
   * strictly descending list of exactly these dates is this one.
   */
  lemma UniqueDatesDetermined(rs: seq<ProductionRecord>, other: seq<string>)
    requires StrictlyDescending(other)
    requires forall d :: d in other <==> d != "" && exists k :: 0 <= k < |rs| && rs[k].fecha == d
    ensures other == UniqueDates(rs)
  {
    StrictlyDescendingUnique(other, UniqueDates(rs));
  }
}
