/**
 * The application component's state and the event handlers that change it:
 * the production form and its task timer, the administrator's points and
 * catalog forms, the record filters, and the documents the handlers write.
 *
 * Times are milliseconds since the epoch. The current time, the id a new
 * document receives and the outcome of each write are parameters of the
 * handler that needs them; `writeError` is `Some(message)` when the write
 * is rejected.
 */
module AppState {
  import opened Wrappers
  import opened Builtins
  import opened Points
  import opened AdminPanel
  import opened AdminForms
  import opened Identity

  // ---------------------------------------------------------------------
  // The task timer
  // ---------------------------------------------------------------------

  const MS_PER_SECOND := 1000
  const MS_PER_MINUTE := 60000
  const MS_PER_DAY := 86400000

  /** `Math.floor((end - start) / 60000)`: whole minutes elapsed, rounded down. */
  function DurationMinutes(start: int, end: int): (minutes: int)
    ensures minutes * MS_PER_MINUTE <= end - start < (minutes + 1) * MS_PER_MINUTE
    ensures start <= end ==> minutes >= 0
  {
    (end - start) / MS_PER_MINUTE
  }

  /** The seconds elapsed since local midnight at local time `t`. */
  function SecondsOfDay(t: int): (s: nat)
    ensures s < 86400
  {
    (t % MS_PER_DAY) / MS_PER_SECOND
  }

  /** A number below 100 written with two digits, with a leading zero if needed. */
  function TwoDigits(n: nat): (s: string)
    requires n < 100
    ensures |s| == 2
  {
    [DigitChar(n / 10), DigitChar(n % 10)]
  }

  lemma TwoDigitsValue(n: nat)
    requires n < 100
    ensures AllDigits(TwoDigits(n)) && DigitsValue(TwoDigits(n)) == n
  {
    var s := TwoDigits(n);
    var tens := [DigitChar(n / 10)];
    assert tens[..0] == [];
    assert DigitsValue(tens) == n / 10;
    assert s[..1] == tens;
    assert DigitsValue(s) == 10 * (n / 10) + n % 10;
  }

  /** `toTimeString().split(' ')[0]` at local time `t`: `HH:MM:SS`. */
  function ClockText(t: int): (text: string)
    ensures |text| == 8 && text[2] == ':' && text[5] == ':'
  {
    var x := SecondsOfDay(t);
    TwoDigits(x / 60 / 60) + ":" + TwoDigits(x / 60 % 60) + ":" + TwoDigits(x % 60)
  }

  /** The clock text reads back as the hours, minutes and seconds since local midnight. */
  lemma ClockTextReadsBack(t: int)
    ensures var text := ClockText(t);
            && AllDigits(text[0..2]) && AllDigits(text[3..5]) && AllDigits(text[6..8])
            && DigitsValue(text[0..2]) < 24 && DigitsValue(text[3..5]) < 60 && DigitsValue(text[6..8]) < 60
            && 3600 * DigitsValue(text[0..2]) + 60 * DigitsValue(text[3..5]) + DigitsValue(text[6..8]) == SecondsOfDay(t)
  {
    var x := SecondsOfDay(t);
    var hh, mm, ss := TwoDigits(x / 60 / 60), TwoDigits(x / 60 % 60), TwoDigits(x % 60);
    TwoDigitsValue(x / 60 / 60);
    TwoDigitsValue(x / 60 % 60);
    TwoDigitsValue(x % 60);
    var text := ClockText(t);
    assert text == hh + ":" + mm + ":" + ss;
    assert text[0..2] == hh && text[3..5] == mm && text[6..8] == ss;
  }

  /** The clock reads the same a whole day later. */
  lemma ClockTextDaily(t: int)
    ensures ClockText(t + MS_PER_DAY) == ClockText(t)
  {
    assert (t + MS_PER_DAY) % MS_PER_DAY == t % MS_PER_DAY;
  }

  // ---------------------------------------------------------------------
  // Messages shown to the user
  // ---------------------------------------------------------------------

  const TASK_STARTED := "Tarea iniciada. Presiona \"Fin de Tarea\" al terminar."
  const TASK_NOT_STARTED := "Error: Tarea no iniciada."
  const RECORD_SAVED := "Registro de producción guardado con éxito."
  const POINTS_INCOMPLETE := "Por favor, completa todos los campos del formulario de puntos."
  const POINTS_SAVED := "Puntos de producción guardados/actualizados con éxito."
  const EDITING_POINTS := "Editando puntos. Modifica el formulario y haz clic en Guardar."
  const POINTS_DELETED := "Puntos eliminados con éxito."
  const CATALOG_EMPTY := "El campo no puede estar vacío."

  const TASK_FINISHED_PREFIX := "Tarea finalizada. Duración: "

  /** The report of a finished task, with the minutes written right after the prefix. */
  function TaskFinished(minutes: int): (msg: string)
    ensures OccursAt(msg, IntToString(minutes), |TASK_FINISHED_PREFIX|)
    ensures msg[..|TASK_FINISHED_PREFIX|] == TASK_FINISHED_PREFIX
  {
    var msg := TASK_FINISHED_PREFIX + IntToString(minutes) + " minutos. Ahora completa y envía el formulario.";
    assert msg[..|TASK_FINISHED_PREFIX|] == TASK_FINISHED_PREFIX;
    assert msg[|TASK_FINISHED_PREFIX|..|TASK_FINISHED_PREFIX| + |IntToString(minutes)|] == IntToString(minutes);
    msg
  }

  /** The minutes in the report read back as the duration, which is never negative for a real task. */
  lemma TaskFinishedReadsBack(minutes: nat)
    ensures var msg := TaskFinished(minutes);
            ToNumber(msg[|TASK_FINISHED_PREFIX|..|TASK_FINISHED_PREFIX| + |IntToString(minutes)|])
              == Finite(minutes as real)
  {
    ToNumberOfNatToString(minutes);
  }

  function CatalogSaved(name: string, kind: string): string {
    "\"" + name + "\" agregado/actualizado en el catálogo de " + kind + "."
  }

  function CatalogDeleted(kind: string): string {
    "Elemento eliminado del catálogo de " + kind + "."
  }

  // ---------------------------------------------------------------------
  // Values the handlers build
  // ---------------------------------------------------------------------

  /** `sectors[0] || ''`: the first sector, or nothing when there are none. */
  function FirstSector(sectors: seq<string>): (s: string)
    ensures sectors == [] ==> s == ""
    ensures sectors != [] ==> s == sectors[0]
  {
    if sectors == [] then "" else sectors[0]
  }

  /** A blank production form for the given sector and date, with no task times. */
  function BlankProductionForm(sector: string, today: string): (f: ProductionForm)
    ensures f.sector == sector && f.fecha == today
    ensures f.orden == "" && f.modeloProducto == "" && f.operacion == "" && f.observaciones == ""
    ensures f.cantidad == "" && Quantity(f.cantidad) == 0.0 && f.puntos == Finite(0.0)
    ensures f.horarioInicio.None? && f.horarioFin.None?
  {
    ProductionForm("", sector, "", "", "", Finite(0.0), today, "", None, None)
  }

  /** A blank points form whose sector is preselected. */
  function BlankPointsForm(sector: string): (f: PointsForm)
    ensures PointsFormIncomplete(f) && PointsDocument(f).None?
    ensures f.sector == sector
    ensures f.id == "" && f.modeloProducto == "" && f.operacion == "" && f.puntos == Typed("")
  {
    PointsForm("", sector, "", "", Typed(""))
  }

  /**
   * The production record a submission writes: the form's fields, the
   * signed-in user, the quantity converted with `Number` (not defaulted to 0).
   */
  function NewRecord(user: AuthUser, id: string, timestamp: string, f: ProductionForm): (r: ProductionRecord)
    ensures r.operarioId == user.uid && r.operarioEmail == user.email
    ensures r.cantidad == ToNumber(f.cantidad) && r.puntos == f.puntos
    ensures r.fecha == f.fecha && r.horarioInicio == f.horarioInicio && r.horarioFin == f.horarioFin
    ensures r.id == id && r.timestamp == timestamp && r.orden == f.orden && r.observaciones == f.observaciones
    ensures r.sector == f.sector && r.modeloProducto == f.modeloProducto && r.operacion == f.operacion
  {
    ProductionRecord(id, user.uid, user.email, f.orden, f.sector, f.operacion, f.fecha,
      f.horarioInicio, f.horarioFin, f.modeloProducto, ToNumber(f.cantidad), f.puntos,
      f.observaciones, timestamp)
  }

  /**
   * A record submitted right after a form change carries the table's rate
   * for its own triple times its own quantity.
   */
  lemma SubmittedPointsFollowTable(user: AuthUser, id: string, timestamp: string,
                                   data: seq<PointsEntry>, f: ProductionForm, field: FormField, value: string)
    ensures var r := NewRecord(user, id, timestamp, ApplyFormChange(data, f, field, value));
            r.puntos == RateFor(data, r.sector, r.modeloProducto, r.operacion).Times(r.cantidad.OrZero())
  {
  }

  // ---------------------------------------------------------------------
  // The component
  // ---------------------------------------------------------------------

  class App {
    /** The local time zone's offset from UTC, in milliseconds. */
    const tzOffset: int

    var message: string

    // Mirrors of the collections the component subscribes to.
    var sectors: seq<string>
    var pointsData: seq<PointsEntry>
    var records: seq<ProductionRecord>

    // The operator's panel.
    var productionForm: ProductionForm
    var taskStartTime: Option<int>

    // The administrator's panel.
    var pointsForm: PointsForm
    var catalogForm: CatalogForm
    var editingCatalogId: Option<string>
    var selectedOperarioId: string
    var selectedFecha: string

    // The documents the handlers write.
    var pointsStore: map<string, PointsEntry>
    var catalogStore: map<CatalogKey, string>
    var productionStore: seq<ProductionRecord>

    /** The initial state, over whatever the stores already hold. */
    constructor (tzOffset: int, today: string,
                 pointsStore: map<string, PointsEntry>,
                 catalogStore: map<CatalogKey, string>,
                 productionStore: seq<ProductionRecord>)
      ensures this.tzOffset == tzOffset && message == ""
      ensures sectors == [] && pointsData == [] && records == []
      ensures productionForm == BlankProductionForm("", today) && taskStartTime == None
      ensures pointsForm == BlankPointsForm("")
      ensures catalogForm == CatalogForm("sectors", "") && editingCatalogId == None
      ensures selectedOperarioId == "" && selectedFecha == ""
      ensures this.pointsStore == pointsStore && this.catalogStore == catalogStore
      ensures this.productionStore == productionStore
    {
      this.tzOffset := tzOffset;
      message := "";
      sectors, pointsData, records := [], [], [];
      productionForm := BlankProductionForm("", today);
      taskStartTime := None;
      pointsForm := BlankPointsForm("");
      catalogForm := CatalogForm("sectors", "");
      editingCatalogId := None;
      selectedOperarioId, selectedFecha := "", "";
      this.pointsStore := pointsStore;
      this.catalogStore := catalogStore;
      this.productionStore := productionStore;
    }

    // --- Subscriptions ---------------------------------------------------

    method ReceiveSectors(names: seq<string>)
      modifies this`sectors
      ensures sectors == names
    {
      sectors := names;
    }

    method ReceivePointsData(entries: seq<PointsEntry>)
      modifies this`pointsData
      ensures pointsData == entries
    {
      pointsData := entries;
    }

    method ReceiveRecords(rs: seq<ProductionRecord>)
      modifies this`records
      ensures records == rs
    {
      records := rs;
    }

    // --- The operator's panel --------------------------------------------

    /** One input of the production form changes, and the points follow. */
    method HandleProductionFormChange(field: FormField, value: string)
      modifies this`productionForm
      ensures productionForm == ApplyFormChange(pointsData, old(productionForm), field, value)
      ensures productionForm.puntos == DerivePoints(pointsData, productionForm)
    {
      productionForm := ApplyFormChange(pointsData, productionForm, field, value);
    }

    method HandleStartTask(now: int)
      modifies this`taskStartTime, this`message
      ensures taskStartTime == Some(now) && message == TASK_STARTED
    {
      taskStartTime := Some(now);
      message := TASK_STARTED;
    }

    /**
     * Ending a task stamps the form with the local start and end times and
     * reports the whole minutes elapsed; without a running task nothing but
     * the message changes.
     */
    method HandleEndTask(now: int)
      modifies this`taskStartTime, this`message, this`productionForm
      ensures old(taskStartTime).None? ==>
                taskStartTime == None && productionForm == old(productionForm) && message == TASK_NOT_STARTED
      ensures old(taskStartTime).Some? ==> taskStartTime == None
      ensures old(taskStartTime).Some? ==>
                productionForm == old(productionForm).(horarioInicio := Some(ClockText(old(taskStartTime).value + tzOffset)),
                                                       horarioFin := Some(ClockText(now + tzOffset)))
      ensures old(taskStartTime).Some? ==> message == TaskFinished(DurationMinutes(old(taskStartTime).value, now))
    {
      if taskStartTime.None? {
        message := TASK_NOT_STARTED;
        return;
      }
      var start := taskStartTime.value;
      StampTaskTimes(start, now);
      taskStartTime := None;
      message := TaskFinished(DurationMinutes(start, now));
    }

    /** Records the local clock times of a task's start and end in the form. */
    method StampTaskTimes(start: int, end: int)
      modifies this`productionForm
      ensures productionForm == old(productionForm).(horarioInicio := Some(ClockText(start + tzOffset)),
                                                     horarioFin := Some(ClockText(end + tzOffset)))
    {
      productionForm := productionForm.(horarioInicio := Some(ClockText(start + tzOffset)),
                                        horarioFin := Some(ClockText(end + tzOffset)));
    }

    /** Writes the form as a new record; on success the form is cleared for the next task. */
    method HandleProductionSubmit(user: AuthUser, newId: string, timestamp: string, today: string,
                                  writeError: Option<string>)
      modifies this`message, this`productionStore, this`productionForm
      ensures writeError.None? ==>
                && productionStore == old(productionStore) + [NewRecord(user, newId, timestamp, old(productionForm))]
                && productionForm == BlankProductionForm(FirstSector(sectors), today)
                && message == RECORD_SAVED
      ensures writeError.Some? ==>
                && productionStore == old(productionStore)
                && productionForm == old(productionForm)
                && message == "Error al guardar el registro: " + writeError.value
    {
      message := "";
      var r := NewRecord(user, newId, timestamp, productionForm);
      if writeError.Some? {
        message := "Error al guardar el registro: " + writeError.value;
        return;
      }
      productionStore := productionStore + [r];
      message := RECORD_SAVED;
      productionForm := BlankProductionForm(FirstSector(sectors), today);
    }

    // --- The administrator's points form ---------------------------------

    method HandlePointsFormChange(field: PointsField, value: string)
      modifies this`pointsForm
      ensures pointsForm == SetPointsField(old(pointsForm), field, value)
    {
      pointsForm := SetPointsField(pointsForm, field, value);
    }

    /**
     * An incomplete form only raises the message. A complete one replaces
     * the document of its triple and, on success, is cleared.
     */
    method HandlePointsSubmit(writeError: Option<string>)
      modifies this`message, this`pointsStore, this`pointsForm
      ensures PointsFormIncomplete(old(pointsForm)) ==>
                pointsStore == old(pointsStore) && pointsForm == old(pointsForm) && message == POINTS_INCOMPLETE
      ensures !PointsFormIncomplete(old(pointsForm)) && writeError.None? ==>
                && pointsStore == SavePoints(old(pointsStore), PointsDocument(old(pointsForm)).value)
                && pointsForm == BlankPointsForm(FirstSector(sectors))
                && message == POINTS_SAVED
      ensures !PointsFormIncomplete(old(pointsForm)) && writeError.Some? ==>
                && pointsStore == old(pointsStore) && pointsForm == old(pointsForm)
                && message == "Error al guardar los puntos: " + writeError.value
      ensures PointsStoreWellKeyed(old(pointsStore)) ==> PointsStoreWellKeyed(pointsStore)
    {
      var doc := PointsDocument(pointsForm);
      if doc.None? {
        message := POINTS_INCOMPLETE;
        return;
      }
      message := "";
      if writeError.Some? {
        message := "Error al guardar los puntos: " + writeError.value;
        return;
      }
      WritePoints(pointsForm);
      message := POINTS_SAVED;
      pointsForm := BlankPointsForm(FirstSector(sectors));
    }

    /** `setDoc` of the points document of a complete form. */
    method WritePoints(f: PointsForm)
      requires PointsDocument(f).Some?
      modifies this`pointsStore
      ensures pointsStore == SavePoints(old(pointsStore), PointsDocument(f).value)
      ensures PointsStoreWellKeyed(old(pointsStore)) ==> PointsStoreWellKeyed(pointsStore)
    {
      if PointsStoreWellKeyed(pointsStore) {
        SavePointsKeepsWellKeyed(pointsStore, f);
      }
      pointsStore := SavePoints(pointsStore, PointsDocument(f).value);
    }

    method HandleEditPoints(point: PointsEntry)
      modifies this`pointsForm, this`message
      ensures pointsForm == EditForm(point) && message == EDITING_POINTS
    {
      pointsForm := EditForm(point);
      message := EDITING_POINTS;
    }

    method HandleDeletePoints(id: string, writeError: Option<string>)
      modifies this`pointsStore, this`message
      ensures writeError.None? ==> pointsStore == old(pointsStore) - {id} && message == POINTS_DELETED
      ensures writeError.Some? ==>
                pointsStore == old(pointsStore) && message == "Error al eliminar los puntos: " + writeError.value
      ensures PointsStoreWellKeyed(old(pointsStore)) ==> PointsStoreWellKeyed(pointsStore)
    {
      if writeError.Some? {
        message := "Error al eliminar los puntos: " + writeError.value;
        return;
      }
      pointsStore := pointsStore - {id};
      message := POINTS_DELETED;
    }

    // --- The administrator's catalog form --------------------------------

    method HandleCatalogFormChange(field: CatalogField, value: string)
      modifies this`catalogForm
      ensures catalogForm == SetCatalogField(old(catalogForm), field, value)
    {
      catalogForm := SetCatalogField(catalogForm, field, value);
    }

    /**
     * A blank value only raises the message. Otherwise the trimmed value is
     * written under itself in the chosen collection; on success the value
     * input is cleared and editing ends. The entry being edited, if its
     * name changed, stays in the collection.
     */
    method HandleCatalogSubmit(writeError: Option<string>)
      modifies this`message, this`catalogStore, this`catalogForm, this`editingCatalogId
      ensures CatalogName(old(catalogForm).value).None? ==>
                && catalogStore == old(catalogStore) && catalogForm == old(catalogForm)
                && editingCatalogId == old(editingCatalogId) && message == CATALOG_EMPTY
      ensures CatalogName(old(catalogForm).value).Some? && writeError.None? ==>
                var name := CatalogName(old(catalogForm).value).value;
                && catalogStore == SaveCatalog(old(catalogStore), old(catalogForm).kind, name)
                && catalogForm == old(catalogForm).(value := "")
                && editingCatalogId == None
                && message == CatalogSaved(name, old(catalogForm).kind)
      ensures CatalogName(old(catalogForm).value).Some? && writeError.Some? ==>
                && catalogStore == old(catalogStore) && catalogForm == old(catalogForm)
                && editingCatalogId == old(editingCatalogId)
                && message == "Error al guardar en el catálogo: " + writeError.value
      ensures CatalogStoreWellFormed(old(catalogStore)) ==> CatalogStoreWellFormed(catalogStore)
    {
      message := "";
      var name := CatalogName(catalogForm.value);
      if name.None? {
        message := CATALOG_EMPTY;
        return;
      }
      if writeError.Some? {
        message := "Error al guardar en el catálogo: " + writeError.value;
        return;
      }
      WriteCatalog(catalogForm.kind, catalogForm.value);
      message := CatalogSaved(name.value, catalogForm.kind);
      catalogForm := catalogForm.(value := "");
      editingCatalogId := None;
    }

    /** `setDoc` of the catalog document for a value the form accepts. */
    method WriteCatalog(kind: string, value: string)
      requires CatalogName(value).Some?
      modifies this`catalogStore
      ensures catalogStore == SaveCatalog(old(catalogStore), kind, CatalogName(value).value)
      ensures CatalogStoreWellFormed(old(catalogStore)) ==> CatalogStoreWellFormed(catalogStore)
    {
      if CatalogStoreWellFormed(catalogStore) {
        SaveCatalogKeepsWellFormed(catalogStore, kind, value);
      }
      catalogStore := SaveCatalog(catalogStore, kind, CatalogName(value).value);
    }

    method HandleEditCatalog(kind: string, value: string)
      modifies this`catalogForm, this`editingCatalogId
      ensures catalogForm == CatalogForm(kind, value) && editingCatalogId == Some(value)
    {
      catalogForm := CatalogForm(kind, value);
      editingCatalogId := Some(value);
    }

    method HandleDeleteCatalog(kind: string, id: string, writeError: Option<string>)
      modifies this`catalogStore, this`message
      ensures writeError.None? ==>
                catalogStore == old(catalogStore) - {CatalogKey(kind, id)} && message == CatalogDeleted(kind)
      ensures writeError.Some? ==>
                catalogStore == old(catalogStore) && message == "Error al eliminar del catálogo: " + writeError.value
      ensures CatalogStoreWellFormed(old(catalogStore)) ==> CatalogStoreWellFormed(catalogStore)
    {
      if writeError.Some? {
        message := "Error al eliminar del catálogo: " + writeError.value;
        return;
      }
      catalogStore := catalogStore - {CatalogKey(kind, id)};
      message := CatalogDeleted(kind);
    }

    // --- The administrator's record table --------------------------------

    method SelectOperario(id: string)
      modifies this`selectedOperarioId
      ensures selectedOperarioId == id
    {
      selectedOperarioId := id;
    }

    method SelectFecha(fecha: string)
      modifies this`selectedFecha
      ensures selectedFecha == fecha
    {
      selectedFecha := fecha;
    }

    /** The rows of the record table for the current selection. */
    function ShownRecords(): (shown: seq<ProductionRecord>)
      reads this
      ensures shown == FilterRecords(records, selectedOperarioId, selectedFecha)
      ensures forall r :: r in shown ==> r in records && Passes(r, selectedOperarioId, selectedFecha)
      ensures forall r :: r in records && Passes(r, selectedOperarioId, selectedFecha) ==> r in shown
    {
      var shown := FilterRecords(records, selectedOperarioId, selectedFecha);
      assert forall r :: r in shown <==> multiset(shown)[r] > 0;
      assert forall r :: r in records <==> multiset(records)[r] > 0;
      shown
    }
  }
}
