/**
 * The operator's production form and the points it earns: every change of
 * a field looks the form's (sector, product model, operation) up in the
 * points table and sets `puntos` to that rate times the quantity.
 */
module Points {
  import opened Wrappers
  import opened Builtins
  import opened Sequences

  /** One row of the `pointsData` collection, with its document id. */
  datatype PointsEntry = PointsEntry(
    id: string,
    sector: string,
    modeloProducto: string,
    operacion: string,
    puntos: JsNumber)

  /**
   * The draft production record. The text fields hold what the inputs
   * hold; `horarioInicio` and `horarioFin` are absent until a task is timed.
   */
  datatype ProductionForm = ProductionForm(
    orden: string,
    sector: string,
    modeloProducto: string,
    operacion: string,
    cantidad: string,
    puntos: JsNumber,
    fecha: string,
    observaciones: string,
    horarioInicio: Option<string>,
    horarioFin: Option<string>)

  /** The text inputs of the production form, by their `name` attribute. */
  datatype FormField = Orden | Sector | ModeloProducto | Operacion | Cantidad | Fecha | Observaciones

  function Get(f: ProductionForm, field: FormField): string {
    match field
    case Orden => f.orden
    case Sector => f.sector
    case ModeloProducto => f.modeloProducto
    case Operacion => f.operacion
    case Cantidad => f.cantidad
    case Fecha => f.fecha
    case Observaciones => f.observaciones
  }

  /** `{ ...f, [field]: value }`. */
  function SetField(f: ProductionForm, field: FormField, value: string): (g: ProductionForm)
    ensures Get(g, field) == value
    ensures forall other :: other != field ==> Get(g, other) == Get(f, other)
    ensures g.puntos == f.puntos && g.horarioInicio == f.horarioInicio && g.horarioFin == f.horarioFin
  {
    match field
    case Orden => f.(orden := value)
    case Sector => f.(sector := value)
    case ModeloProducto => f.(modeloProducto := value)
    case Operacion => f.(operacion := value)
    case Cantidad => f.(cantidad := value)
    case Fecha => f.(fecha := value)
    case Observaciones => f.(observaciones := value)
  }

  /** The entry is the one the `find` at the points lookup accepts for this triple. */
  predicate EntryMatches(e: PointsEntry, sector: string, modeloProducto: string, operacion: string) {
    e.sector == sector && e.modeloProducto == modeloProducto && e.operacion == operacion
  }

  /**
   * The rate for a triple: the `puntos` of the first matching entry, or 0
   * when no entry matches.
   */
  function RateFor(data: seq<PointsEntry>, sector: string, modeloProducto: string, operacion: string): (rate: JsNumber)
    ensures (forall k :: 0 <= k < |data| ==> !EntryMatches(data[k], sector, modeloProducto, operacion))
              ==> rate == Finite(0.0)
    ensures forall k :: 0 <= k < |data| && EntryMatches(data[k], sector, modeloProducto, operacion)
              && (forall j :: 0 <= j < k ==> !EntryMatches(data[j], sector, modeloProducto, operacion))
              ==> rate == data[k].puntos
  {
    match Find(data, e => EntryMatches(e, sector, modeloProducto, operacion))
    case Some(k) => data[k].puntos
    case None => Finite(0.0)
  }

  /** The rate is that of the first entry of the matching ones, kept in table order. */
  lemma RateIsFirstOfMatching(data: seq<PointsEntry>, sector: string, modeloProducto: string, operacion: string)
    ensures var matching := Filter(data, e => EntryMatches(e, sector, modeloProducto, operacion));
            RateFor(data, sector, modeloProducto, operacion) == if matching == [] then Finite(0.0) else matching[0].puntos
  {
    var p := e => EntryMatches(e, sector, modeloProducto, operacion);
    var matching := Filter(data, p);
    match Find(data, p)
    case None =>
      assert forall e :: e in data ==> !p(e);
    case Some(k) =>
      assert data == data[..k] + data[k..];
      FilterOfUnmatchedPrefix(data, p, k);
  }

  /** When none of the first `k` entries satisfy `p`, the filter starts at entry `k`. */
  lemma {:induction false} FilterOfUnmatchedPrefix(data: seq<PointsEntry>, p: PointsEntry -> bool, k: nat)
    requires k < |data| && p(data[k])
    requires forall j :: 0 <= j < k ==> !p(data[j])
    ensures Filter(data, p) != [] && Filter(data, p)[0] == data[k]
  {
    if k > 0 {
      FilterOfUnmatchedPrefix(data[1..], p, k - 1);
    }
  }

  /** `Number(cantidad) || 0`: blank or non-numeric quantities count as 0. */
  function Quantity(cantidad: string): (q: real)
    ensures AllWhitespace(cantidad) ==> q == 0.0
    ensures ToNumber(cantidad).NaN? ==> q == 0.0
    ensures ToNumber(cantidad).Finite? ==> q == ToNumber(cantidad).value
  {
    ToNumber(cantidad).OrZero()
  }

  /** The points the form earns: its triple's rate times its quantity. */
  function DerivePoints(data: seq<PointsEntry>, f: ProductionForm): (p: JsNumber)
    ensures (forall k :: 0 <= k < |data| ==> !EntryMatches(data[k], f.sector, f.modeloProducto, f.operacion))
              ==> p == Finite(0.0)
    ensures forall k :: 0 <= k < |data| && EntryMatches(data[k], f.sector, f.modeloProducto, f.operacion)
              && (forall j :: 0 <= j < k ==> !EntryMatches(data[j], f.sector, f.modeloProducto, f.operacion))
              ==> p == data[k].puntos.Times(Quantity(f.cantidad))
  {
    var rate := RateFor(data, f.sector, f.modeloProducto, f.operacion);
    var q := Quantity(f.cantidad);
    assert rate.NaN? || rate == Finite(rate.value);
    rate.Times(q)
  }

  /**
   * A blank or non-numeric quantity earns 0 points, unless the matching
   * rate itself is not a number.
   */
  lemma NonNumericQuantityEarnsNothing(data: seq<PointsEntry>, f: ProductionForm)
    requires AllWhitespace(f.cantidad) || ToNumber(f.cantidad).NaN?
    ensures DerivePoints(data, f) == if RateFor(data, f.sector, f.modeloProducto, f.operacion).NaN? then NaN else Finite(0.0)
  {
  }

  /**
   * The production form after one input changes: that field takes the
   * new value, `puntos` is recomputed from the table, nothing else moves.
   */
  function ApplyFormChange(data: seq<PointsEntry>, f: ProductionForm, field: FormField, value: string): (g: ProductionForm)
    ensures Get(g, field) == value
    ensures forall other :: other != field ==> Get(g, other) == Get(f, other)
    ensures g.horarioInicio == f.horarioInicio && g.horarioFin == f.horarioFin
    ensures g.puntos == DerivePoints(data, g)
  {
    var g := SetField(f, field, value);
    g.(puntos := DerivePoints(data, g))
  }

  /** Applying the same change twice is applying it once. */
  lemma ApplyFormChangeIdempotent(data: seq<PointsEntry>, f: ProductionForm, field: FormField, value: string)
    ensures ApplyFormChange(data, ApplyFormChange(data, f, field, value), field, value)
            == ApplyFormChange(data, f, field, value)
  {
  }

  /** The points shown never depend on the points shown before the change. */
  lemma ApplyFormChangeIgnoresOldPoints(data: seq<PointsEntry>, f: ProductionForm, previous: JsNumber, field: FormField, value: string)
    ensures ApplyFormChange(data, f.(puntos := previous), field, value) == ApplyFormChange(data, f, field, value)
  {
  }
}
