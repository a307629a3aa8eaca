/**
 * The administrator's two editing forms: the points form, which upserts a
 * rate under the key `sector-modeloProducto-operacion`, and the catalog
 * form, which stores a trimmed name under itself.
 */
module AdminForms {
  import opened Wrappers
  import opened Builtins
  import opened Sequences
  import opened Points

  // ---------------------------------------------------------------------
  // The points form
  // ---------------------------------------------------------------------

  /**
   * What the `puntos` field of the points form holds: the text typed into
   * it, or the number put there when an existing entry is loaded for editing.
   */
  datatype PointsInput = Typed(text: string) | Loaded(number: JsNumber) {

    /** `Number(puntos)`. */
    function ToJsNumber(): JsNumber {
      match this
      case Typed(t) => ToNumber(t)
      case Loaded(n) => n
    }
  }

  datatype PointsForm = PointsForm(
    id: string,
    sector: string,
    modeloProducto: string,
    operacion: string,
    puntos: PointsInput)

  /** The inputs of the points form, by their `name` attribute. */
  datatype PointsField = PointsSector | PointsModeloProducto | PointsOperacion | PointsPuntos

  /** `{ ...f, [field]: value }` on the points form; whatever is typed into `puntos` is text. */
  function SetPointsField(f: PointsForm, field: PointsField, value: string): (g: PointsForm)
    ensures g.id == f.id
    ensures g.sector == if field == PointsSector then value else f.sector
    ensures g.modeloProducto == if field == PointsModeloProducto then value else f.modeloProducto
    ensures g.operacion == if field == PointsOperacion then value else f.operacion
    ensures g.puntos == if field == PointsPuntos then Typed(value) else f.puntos
  {
    match field
    case PointsSector => f.(sector := value)
    case PointsModeloProducto => f.(modeloProducto := value)
    case PointsOperacion => f.(operacion := value)
    case PointsPuntos => f.(puntos := Typed(value))
  }

  /**
   * The points form loaded with an existing entry for editing: it is
   * complete exactly when the entry's triple is, and `Number(puntos)` gives
   * the entry's rate back.
   */
  function EditForm(e: PointsEntry): (f: PointsForm)
    ensures f.id == e.id
    ensures f.sector == e.sector && f.modeloProducto == e.modeloProducto && f.operacion == e.operacion
    ensures f.puntos.ToJsNumber() == e.puntos
    ensures PointsFormIncomplete(f) <==> e.sector == "" || e.modeloProducto == "" || e.operacion == ""
  {
    PointsForm(e.id, e.sector, e.modeloProducto, e.operacion, Loaded(e.puntos))
  }

  /**
   * The document id of a rate: `${sector}-${modeloProducto}-${operacion}`,
   * the three values in order with a hyphen after the first and the second.
   */
  function PointsKey(sector: string, modeloProducto: string, operacion: string): (key: string)
    ensures |key| == |sector| + |modeloProducto| + |operacion| + 2
    ensures key[..|sector|] == sector && key[|sector|] == '-'
    ensures key[|sector| + 1..|sector| + 1 + |modeloProducto|] == modeloProducto
    ensures key[|sector| + 1 + |modeloProducto|] == '-'
    ensures key[|sector| + |modeloProducto| + 2..] == operacion
  {
    sector + "-" + modeloProducto + "-" + operacion
  }

  /**
   * Reading a key back: the text before the first hyphen, between the first
   * and the second, and after the second. The source has no such function;
   * it is here to state what the key determines.
   */
  function SplitKey(key: string): (string, string, string) {
    var i := IndexOf(key, '-');
    if i == |key| then (key, "", "")
    else
      var rest := key[i + 1..];
      var j := IndexOf(rest, '-');
      if j == |rest| then (key[..i], rest, "") else (key[..i], rest[..j], rest[j + 1..])
  }

  /** The first hyphen of `k` is at `n` when `k[n]` is one and none comes before it. */
  lemma FirstHyphenAt(k: string, n: nat)
    requires n < |k| && k[n] == '-' && '-' !in k[..n]
    ensures IndexOf(k, '-') == n
  {
  }

  /** The key of a triple whose sector and product model have no hyphen gives the triple back. */
  lemma {:induction false} SplitKeyOfPointsKey(sector: string, modeloProducto: string, operacion: string)
    requires '-' !in sector && '-' !in modeloProducto
    ensures SplitKey(PointsKey(sector, modeloProducto, operacion)) == (sector, modeloProducto, operacion)
  {
    var key := PointsKey(sector, modeloProducto, operacion);
    FirstHyphenAt(key, |sector|);
    var rest := key[|sector| + 1..];
    assert rest[..|modeloProducto|] == key[|sector| + 1..|sector| + 1 + |modeloProducto|];
    assert rest[|modeloProducto|] == key[|sector| + 1 + |modeloProducto|];
    FirstHyphenAt(rest, |modeloProducto|);
    assert rest[|modeloProducto| + 1..] == key[|sector| + |modeloProducto| + 2..];
  }

  /**
   * Distinct triples get distinct documents as long as the sector and the
   * product model contain no hyphen.
   */
  lemma PointsKeyInjective(s1: string, m1: string, o1: string, s2: string, m2: string, o2: string)
    requires '-' !in s1 && '-' !in m1 && '-' !in s2 && '-' !in m2
    requires PointsKey(s1, m1, o1) == PointsKey(s2, m2, o2)
    ensures s1 == s2 && m1 == m2 && o1 == o2
  {
    SplitKeyOfPointsKey(s1, m1, o1);
    SplitKeyOfPointsKey(s2, m2, o2);
  }

  /** With hyphens inside the values, two different triples share one document. */
  lemma PointsKeyAliasing()
    ensures PointsKey("A-B", "C", "D") == PointsKey("A", "B-C", "D")
  {
  }

  /** The form leaves a required field empty, so nothing is written. */
  predicate PointsFormIncomplete(f: PointsForm) {
    f.sector == "" || f.modeloProducto == "" || f.operacion == "" || f.puntos == Typed("")
  }

  /**
   * The document the points form writes, or nothing when the form is
   * incomplete. The id the form may carry from editing plays no part.
   */
  function PointsDocument(f: PointsForm): (doc: Option<PointsEntry>)
    ensures doc.None? <==> PointsFormIncomplete(f)
    ensures doc.Some? ==> doc.value.id == PointsKey(f.sector, f.modeloProducto, f.operacion)
    ensures doc.Some? ==> EntryMatches(doc.value, f.sector, f.modeloProducto, f.operacion)
    ensures doc.Some? ==> doc.value.puntos == f.puntos.ToJsNumber()
  {
    if PointsFormIncomplete(f) then None
    else
      var key := PointsKey(f.sector, f.modeloProducto, f.operacion);
      Some(PointsEntry(key, f.sector, f.modeloProducto, f.operacion, f.puntos.ToJsNumber()))
  }

  /** Every stored rate sits under the key of its own triple, with no field empty. */
  predicate PointsStoreWellKeyed(store: map<string, PointsEntry>) {
    forall key :: key in store ==>
      && store[key].id == key
      && key == PointsKey(store[key].sector, store[key].modeloProducto, store[key].operacion)
      && store[key].sector != "" && store[key].modeloProducto != "" && store[key].operacion != ""
  }

  /** `setDoc` of a points document: a full replace under its id. */
  function SavePoints(store: map<string, PointsEntry>, doc: PointsEntry): (after: map<string, PointsEntry>)
    ensures after.Keys == store.Keys + {doc.id}
    ensures after[doc.id] == doc
    ensures forall key :: key in store && key != doc.id ==> after[key] == store[key]
  {
    store[doc.id := doc]
  }

  /** Saving what the form produces keeps the store well keyed. */
  lemma SavePointsKeepsWellKeyed(store: map<string, PointsEntry>, f: PointsForm)
    requires PointsStoreWellKeyed(store)
    requires PointsDocument(f).Some?
    ensures PointsStoreWellKeyed(SavePoints(store, PointsDocument(f).value))
  {
  }

  /** Loading a stored entry into the form and saving it unchanged writes that entry back. */
  lemma EditedEntrySavesBack(store: map<string, PointsEntry>, key: string)
    requires PointsStoreWellKeyed(store) && key in store
    ensures PointsDocument(EditForm(store[key])) == Some(store[key])
    ensures SavePoints(store, PointsDocument(EditForm(store[key])).value) == store
  {
  }

  /**
   * Saving the same triple again overwrites the earlier rate: the store
   * ends as if only the later save had happened.
   */
  lemma ResaveOverwrites(store: map<string, PointsEntry>, f1: PointsForm, f2: PointsForm)
    requires PointsDocument(f1).Some? && PointsDocument(f2).Some?
    requires f1.sector == f2.sector && f1.modeloProducto == f2.modeloProducto && f1.operacion == f2.operacion
    ensures SavePoints(SavePoints(store, PointsDocument(f1).value), PointsDocument(f2).value)
            == SavePoints(store, PointsDocument(f2).value)
  {
  }

  // ---------------------------------------------------------------------
  // The catalog form
  // ---------------------------------------------------------------------

  /** The catalog form: the collection (`type` in the source) and the value typed. */
  datatype CatalogForm = CatalogForm(kind: string, value: string)

  /** The inputs of the catalog form: the collection selector (`type`) and the value. */
  datatype CatalogField = CatalogKind | CatalogValue

  function SetCatalogField(f: CatalogForm, field: CatalogField, value: string): (g: CatalogForm)
    ensures g.kind == if field == CatalogKind then value else f.kind
    ensures g.value == if field == CatalogValue then value else f.value
  {
    match field
    case CatalogKind => f.(kind := value)
    case CatalogValue => f.(value := value)
  }

  /** A name with no white space at either end, and not empty. */
  predicate IsTrimmedName(name: string) {
    name != [] && !IsWhitespace(name[0]) && !IsWhitespace(name[|name| - 1])
  }

  /** The name a catalog value is stored under, or nothing when it is blank. */
  function CatalogName(value: string): (name: Option<string>)
    ensures name.None? <==> AllWhitespace(value)
    ensures name.Some? ==> name.value == Trim(value)
    ensures name.Some? ==> IsTrimmedName(name.value)
  {
    var t := Trim(value);
    if t == [] then None else Some(t)
  }

  /** Submitting the stored name again stores it under the same name. */
  lemma CatalogNameStable(value: string)
    requires CatalogName(value).Some?
    ensures CatalogName(CatalogName(value).value) == CatalogName(value)
  {
    TrimIdempotent(value);
  }

  /** A catalog document: its collection and its id. */
  datatype CatalogKey = CatalogKey(kind: string, id: string)

  /** Every catalog document is named by its id, which is non-empty and trimmed. */
  predicate CatalogStoreWellFormed(store: map<CatalogKey, string>) {
    forall key :: key in store ==>
      store[key] == key.id && IsTrimmedName(key.id)
  }

  /** `setDoc(doc(..., kind, name), { name })`. */
  function SaveCatalog(store: map<CatalogKey, string>, kind: string, name: string): (after: map<CatalogKey, string>)
    ensures after.Keys == store.Keys + {CatalogKey(kind, name)}
    ensures after[CatalogKey(kind, name)] == name
    ensures forall key :: key in store && key != CatalogKey(kind, name) ==> after[key] == store[key]
  {
    store[CatalogKey(kind, name) := name]
  }

  /** Saving a value the form accepts keeps every document named by its trimmed id. */
  lemma SaveCatalogKeepsWellFormed(store: map<CatalogKey, string>, kind: string, value: string)
    requires CatalogStoreWellFormed(store)
    requires CatalogName(value).Some?
    ensures CatalogStoreWellFormed(SaveCatalog(store, kind, CatalogName(value).value))
  {
  }

  /**
   * Editing an entry and submitting a different name adds the new entry
   * and leaves the old one in place: nothing is deleted.
   */
  lemma RenameKeepsOldEntry(store: map<CatalogKey, string>, kind: string, editing: string, value: string)
    requires CatalogKey(kind, editing) in store
    requires CatalogName(value).Some? && CatalogName(value).value != editing
    ensures var after := SaveCatalog(store, kind, CatalogName(value).value);
            CatalogKey(kind, editing) in after && after[CatalogKey(kind, editing)] == store[CatalogKey(kind, editing)]
            && CatalogKey(kind, CatalogName(value).value) in after
  {
  }
}
