# Production points tracker: a verified model of its rules

The application is a single React component backed by a document store. Operators use it to log production and earn points. Administrators use it to set the point rates and the catalogs, and to browse what was logged.

This project models, in Dafny, the rules that the component embeds in its event handlers and render code:

- **Points.** Every change to a production-form field recomputes `puntos`. It is the rate of the first `pointsData` entry matching the form's (sector, product model, operation) triple, times the quantity. A blank or non-numeric quantity counts as 0, and so does a missing rate.
- **Task timer.** Starting a task stores the start time. Ending it writes the local start and end clock times (`HH:MM:SS`) into the form and reports the whole minutes elapsed. Ending without a start only shows an error.
- **Record table.** The conjunctive filter on operator and date, where an empty selector means "any". The operator drop-down has distinct non-empty ids in first-seen order, each labelled with the first email seen for it. The date drop-down has distinct non-empty dates, latest first.
- **Points form.** It is rejected when a field is empty. Otherwise it replaces the document under the key `sector-modeloProducto-operacion`.
- **Catalog form.** It is rejected when the value is blank. Otherwise the trimmed value is both the document id and its name.
- **Searchable drop-down.** Its options are filtered by a case-insensitive substring match.
- **Role.** A signed-in user takes the role stored in their role document, or `operario` when there is none. A failed role read signs the user out. Only the `admin` role can show the administrator panel.

## Layout

- `wrappers.dfy`: `Option`.
- `builtins.dfy`: the JavaScript built-ins the rules rest on.
  - `trim`, with the ECMAScript white-space set.
  - `Number(string)`, over a `JsNumber` that is a real or NaN.
  - `${n}` for integers.
  - `toLowerCase`, `includes`, and the string order used for the dates.
- `sequences.dfy`: `find`, `filter`, `Array.from(new Set(...))` and the descending sort, with their properties.
- `points.dfy`: the production form and the points derivation.
- `admin_panel.dfy`: the record filter and the two filter drop-downs.
- `admin_forms.dfy`: the points and catalog forms, their documents and keys, and the store updates they make.
- `dropdown.dfy`: `SearchableDropdown`'s option filter.
- `identity.dfy`: role resolution after an authentication event.
- `app_state.dfy`: class `App`, whose fields are the component's state variables and whose methods are its handlers. The same file holds the timer arithmetic, the clock text and the messages.

Model-wide conventions:

- Times are integer milliseconds since the epoch.
- The local time-zone offset is a constant of the `App` object.
- A handler that reads the clock receives the current time as a parameter.
- A document write is an update of a map, or an append to a sequence, held in a field of `App`. Whether the write is rejected is a parameter `writeError: Option<string>`, and on rejection the handler shows the error message.
- A field that a stored record lacks is read as the empty string. Like `undefined`, it is falsy, but unlike `undefined` it is equal to `''` (see "## Left out").

Editing a catalog entry and submitting a new name never deletes the old entry. `handleEditCatalog` loads the value and records `editingCatalogId`, and the submit only writes the new name and clears `editingCatalogId`; nothing reads `editingCatalogId` to remove the old document. `AdminForms.RenameKeepsOldEntry` states that the old entry survives.

## Model

| member | source | states |
|---|---|---|
| Builtins.Trim | src/App.js:389-396 | `trim` yields a slice of the input with only white space before and after it. The result is empty exactly when the input is all white space, and otherwise starts and ends with a non-white-space character. |
| Builtins.TrimIdempotent | src/App.js:394-396 | Trimming an already trimmed value changes nothing. |
| Builtins.ToNumber | src/App.js:255 | `Number` of a blank or all-white-space string is 0. |
| Builtins.ToNumberOfDigits | src/App.js:255 | `Number` reads a string of decimal digits as the number those digits denote. |
| Builtins.ToNumberOfNegatedDigits | src/App.js:255 | `Number` reads a minus sign followed by digits as the negated number. |
| Builtins.ToNumberOfDecimal | src/App.js:255 | `Number` reads digits, a decimal point and digits as the decimal fraction they denote; either side of the point may be empty, not both. |
| Builtins.UnsignedDecimalRejects | src/App.js:255 | A numeral holding a character other than a digit or the decimal point is not a number. |
| Builtins.ToNumberOfNonNumeral | src/App.js:255 | `Number` of a text whose trimmed form holds a character that is neither a digit nor the point, outside a leading sign, is NaN. This holds for the modelled numerals (decimal, with an optional sign and fraction): JavaScript reads `"1e3"`, `"0x10"` and `"Infinity"` as numbers, and the model reads them as NaN, the case `\|\| 0` turns into 0. |
| Builtins.NatToStringDigits | src/App.js:284 | The numeral a duration is rendered as consists of digits, has no leading zero, and denotes the number. |
| Builtins.IntToStringDigits | src/App.js:284 | `${i}` is the digits of `i`'s magnitude, preceded by a minus sign exactly when `i` is negative. |
| Builtins.ToNumberOfNatToString | src/App.js:284 | Reading back the rendered numeral of a natural number gives that number. |
| Builtins.ToLower | src/App.js:30 | Lower-casing keeps the length and maps each character through the case mapping. |
| Builtins.ToLowerIdempotent | src/App.js:30 | Lower-casing twice is lower-casing once. |
| Builtins.Includes | src/App.js:30 | `includes` is true exactly when the term occurs at some position of the text. |
| Builtins.LexLessIrreflexive | src/App.js:438 | The date order never puts a date before itself. |
| Builtins.LexLessAsymmetric | src/App.js:438 | The date order never puts two dates each before the other. |
| Builtins.LexLessTransitive | src/App.js:438 | The date order is transitive. |
| Builtins.LexLessTotal | src/App.js:438 | Any two different dates are ordered one way or the other. |
| Sequences.Find | src/App.js:253 | `find` returns the first index whose element satisfies the predicate, or none exactly when no element does. |
| Sequences.Filter | src/App.js:495-498 | `filter` keeps exactly the satisfying elements, as an order-preserving subsequence, each as often as it occurs. |
| Sequences.FilterKeepsAll | src/App.js:495-498 | A filter that every element passes returns the list unchanged. |
| Sequences.FilterSamePredicate | src/App.js:29-31 | Two predicates that agree on the elements filter alike. |
| Sequences.FilterFilter | src/App.js:495-498 | Filtering by one predicate and then another is filtering once by their conjunction. |
| Sequences.IndexOf | src/App.js:431 | The first position of an element, or the length of the list when the element is absent. |
| Sequences.Distinct | src/App.js:431 | `Array.from(new Set(s))` has no duplicates and holds exactly the elements of `s`. |
| Sequences.DistinctFirstSeenOrder | src/App.js:431 | The distinct elements come in the order of their first occurrence. |
| Sequences.SortDescending | src/App.js:438 | The sort yields a descending permutation of its input. |
| Sequences.SortDescendingStrict | src/App.js:438 | Sorting a list without duplicates gives a strictly descending list. |
| Sequences.StrictlyDescendingUnique | src/App.js:438 | Two strictly descending lists with the same elements are equal, so the sorted date list is determined. |
| Points.SetField | src/App.js:250 | `{ ...prev, [name]: value }` sets the named field and leaves every other field, the points and the task times as they were. |
| Points.RateFor | src/App.js:253-254 | The rate is the `puntos` of the first entry matching the triple, or 0 when none matches. |
| Points.RateIsFirstOfMatching | src/App.js:253-254 | The rate is the head of the matching entries in table order, or 0 when there are none. |
| Points.Quantity | src/App.js:255 | The quantity is `Number(cantidad)`, or 0 when that is NaN or the text is blank. |
| Points.DerivePoints | src/App.js:253-255 | The points are 0 without a matching entry, and otherwise the first matching entry's rate times the quantity. |
| Points.NonNumericQuantityEarnsNothing | src/App.js:255 | A blank or non-numeric quantity earns 0 points, unless the rate itself is NaN. |
| Points.ApplyFormChange | src/App.js:248-258 | After a change the named field holds the new value. Every other field and both task times are unchanged. `puntos` equals the points derived from the new form. |
| Points.ApplyFormChangeIdempotent | src/App.js:248-258 | Repeating the same change has no further effect. |
| Points.ApplyFormChangeIgnoresOldPoints | src/App.js:255 | The new points never depend on the points shown before the change. |
| AdminPanel.FilterRecords | src/App.js:494-498 | The table shows an order-preserving subsequence of the records. Every shown record matches each non-empty selector, and each matching record is shown as often as it occurs. |
| AdminPanel.FilterNothingSelected | src/App.js:494-498 | With both selectors empty every record is shown, in order. |
| AdminPanel.FilterOperatorThenDate | src/App.js:495-498 | Filtering by operator and then by date equals the combined filter. |
| AdminPanel.FilterDateThenOperator | src/App.js:495-498 | Filtering by date and then by operator equals the combined filter. |
| AdminPanel.NonEmpty | src/App.js:431 | `filter(Boolean)` on strings keeps exactly the non-empty ones, each as often as it occurs, in order. |
| AdminPanel.OperatorIds | src/App.js:431 | The operator ids have no duplicates and are exactly the non-empty `operarioId`s of the records, in first-seen order. |
| AdminPanel.OperatorLabel | src/App.js:432-435 | The label is the email of the first record with that id and an email, and otherwise the id itself. |
| AdminPanel.Operators | src/App.js:432-435 | There is one entry per operator id, in the same order, each with its label. |
| AdminPanel.OperatorLabelsNonEmpty | src/App.js:431-435 | No operator entry has an empty id or an empty label. |
| AdminPanel.UniqueDates | src/App.js:438 | The date list is strictly descending, has no duplicates, and holds exactly the non-empty dates of the records. |
| AdminPanel.SortDistinct | src/App.js:438 | Sorting distinct dates keeps exactly those dates, strictly descending. |
| AdminPanel.UniqueDatesDetermined | src/App.js:438 | Any strictly descending list of exactly those dates is the date list. |
| AdminForms.SetPointsField | src/App.js:329-332 | A points-form change sets the named input; anything typed into `puntos` is text. |
| AdminForms.SplitKeyOfPointsKey | src/App.js:342 | A key whose sector and product model contain no hyphen splits back into its triple. |
| AdminForms.PointsKeyInjective | src/App.js:342 | Distinct triples without hyphens in their sector and product model get distinct documents. |
| AdminForms.PointsKey | src/App.js:342 | The document id is the sector, a hyphen, the product model, a hyphen and the operation, at those positions and with that length. |
| AdminForms.FirstHyphenAt | src/App.js:342 | A key's first hyphen is where the sector ends when the sector holds none; this is what lets the key be read back. |
| AdminForms.PointsKeyAliasing | src/App.js:342 | Two different triples with hyphens inside them share a document. |
| AdminForms.PointsDocument | src/App.js:336-349 | No document exactly when sector, product model or operation is empty or `puntos` is `''`. Otherwise the document is keyed by the triple, carries the triple, and carries `Number(puntos)`. |
| AdminForms.SavePoints | src/App.js:343-349 | `setDoc` replaces the document under its id and leaves every other document unchanged. |
| AdminForms.SavePointsKeepsWellKeyed | src/App.js:336-349 | Saving a complete form keeps every rate stored under the key of its own non-empty triple. |
| AdminForms.EditForm | src/App.js:358-366 | The form loaded for editing carries the entry's id and triple, `Number(puntos)` gives the entry's rate back, and it is complete exactly when the entry's triple is. |
| AdminForms.EditedEntrySavesBack | src/App.js:358-366 | Loading a stored rate into the form and saving it unchanged writes back the same document. |
| AdminForms.ResaveOverwrites | src/App.js:342-349 | Saving the same triple twice leaves only the later rate; nothing is duplicated. |
| AdminForms.SetCatalogField | src/App.js:380-383 | A catalog-form change sets the collection or the value. |
| AdminForms.CatalogName | src/App.js:388-395 | A blank value is rejected. Otherwise the name is the trimmed value, which is non-empty and has no white space at either end. |
| AdminForms.CatalogNameStable | src/App.js:394-396 | Submitting a stored name again stores it under the same name. |
| AdminForms.SaveCatalog | src/App.js:394-395 | The document is written under the trimmed name with that name, and other documents are unchanged. |
| AdminForms.SaveCatalogKeepsWellFormed | src/App.js:388-395 | Every catalog document stays named by its own non-empty, trimmed id. |
| AdminForms.RenameKeepsOldEntry | src/App.js:385-408 | Submitting a different name while editing adds the new entry and leaves the old one in place. |
| Dropdown.FilteredOptions | src/App.js:29-31 | The options shown are an order-preserving subsequence of the options: exactly those whose lower-cased text contains the lower-cased term, each as often as it occurs. |
| Dropdown.EmptySearchShowsAll | src/App.js:25-31 | Before anything is typed every option is listed. |
| Dropdown.SelectedOptionStaysListed | src/App.js:45-48 | A selected option becomes the search term and is still listed. |
| Dropdown.LongerSearchNarrows | src/App.js:29-31 | A term that contains another lists no option the shorter term does not. |
| Dropdown.SearchIgnoresCase | src/App.js:29-31 | Lower-casing the term does not change the options listed. |
| Identity.ResolveSession | src/App.js:127-143 | No user or a failed role read means no session. Otherwise the user keeps their identity and gets the stored role, or `operario` when no role document exists. |
| Identity.AdminPanelNeedsAdminRoleDocument | src/App.js:131-136 | The administrator panel is shown only for a user whose role document says `admin`. |
| AppState.DurationMinutes | src/App.js:272 | The duration is the whole number of minutes elapsed, rounded down, and is never negative for a task that ends after it starts. |
| AppState.ClockText | src/App.js:274-275 | The clock text has eight characters with colons at positions 2 and 5. |
| AppState.ClockTextReadsBack | src/App.js:274-275 | The clock text's hours, minutes and seconds are two-digit fields in range, and they add up to the seconds since local midnight. |
| AppState.ClockTextDaily | src/App.js:274-275 | The clock reads the same a whole day later. |
| AppState.FirstSector | src/App.js:312 | `sectors[0] \|\| ''` is the first sector, or empty when there are none. |
| AppState.NewRecord | src/App.js:291-306 | A submitted record carries the given id and timestamp, the signed-in user's id and email, the form's order, triple, date, task times and remarks, `Number(cantidad)` and the form's points. |
| AppState.SubmittedPointsFollowTable | src/App.js:248-306 | A record submitted right after a form change carries the table's rate for the record's own triple times the record's own quantity, with NaN read as 0. |
| AppState.BlankProductionForm | src/App.js:310-319 | The reset form has the given sector and date, empty text fields including the quantity `''` (which reads as 0), 0 points and no task times. |
| AppState.BlankPointsForm | src/App.js:351 | The cleared points form has the preselected sector and an empty id, product model, operation and `puntos`, so it is incomplete and cannot be submitted as is. |
| AppState.TaskFinished | src/App.js:284 | The report starts with its fixed prefix, and the duration's numeral comes right after it. |
| AppState.TaskFinishedReadsBack | src/App.js:272-284 | The numeral in the report reads back as the minutes reported. |
| AppState.App.constructor | src/App.js:88-122 | The initial state: empty message and lists, blank forms dated today, no task running, the `sectors` collection selected, no filters. |
| AppState.App.ReceiveSectors | src/App.js:195-198 | A sectors snapshot replaces the sector list. |
| AppState.App.ReceivePointsData | src/App.js:175-184 | A points snapshot replaces the rate table. |
| AppState.App.ReceiveRecords | src/App.js:157-163 | A records snapshot replaces the record list. |
| AppState.App.HandleProductionFormChange | src/App.js:248-258 | The form becomes the changed form with re-derived points, computed from the current rate table. |
| AppState.App.HandleStartTask | src/App.js:260-263 | Starting overwrites any earlier start and shows the started message. |
| AppState.App.StampTaskTimes | src/App.js:277-281 | The form gets the clock texts of the start and the end as `horarioInicio` and `horarioFin`, and every other field is kept. |
| AppState.App.HandleEndTask | src/App.js:265-285 | Without a start only the error message is set. Otherwise both local clock times are stamped, the start is cleared, and the message reports the whole minutes elapsed. |
| AppState.App.HandleProductionSubmit | src/App.js:287-327 | On success the record is appended and the form is reset to the first sector and today. On failure nothing but the error message changes. |
| AppState.App.HandlePointsFormChange | src/App.js:329-332 | One input of the points form changes. |
| AppState.App.WritePoints | src/App.js:342-349 | The complete form's document replaces the one under its key, and a well-keyed store stays well keyed. |
| AppState.App.HandlePointsSubmit | src/App.js:334-356 | An incomplete form only shows the message. Otherwise the triple's document is replaced and the form cleared, or on failure only the error shows. Stored rates stay well keyed. |
| AppState.App.HandleEditPoints | src/App.js:358-367 | The form is loaded with the entry, its `puntos` as a number, and the editing message is shown. |
| AppState.App.HandleDeletePoints | src/App.js:369-378 | On success the document is removed; on failure only the error shows. Stored rates stay well keyed. |
| AppState.App.HandleCatalogFormChange | src/App.js:380-383 | One input of the catalog form changes. |
| AppState.App.WriteCatalog | src/App.js:394-395 | The trimmed name is written under itself in the chosen collection, and a well-formed catalog stays well formed. |
| AppState.App.HandleCatalogSubmit | src/App.js:385-403 | A blank value only shows the message. Otherwise the trimmed name is written, the value cleared and editing ended, or on failure only the error shows. Catalog documents stay well formed. |
| AppState.App.HandleEditCatalog | src/App.js:405-408 | The catalog form is loaded with the collection and the value, which becomes the entry being edited. |
| AppState.App.HandleDeleteCatalog | src/App.js:410-418 | On success the document is removed; on failure only the error shows. |
| AppState.App.SelectOperario | src/App.js:450 | Choosing an operator sets the operator selector. |
| AppState.App.SelectFecha | src/App.js:463 | Choosing a date sets the date selector. |
| AppState.App.ShownRecords | src/App.js:494-498 | The rows are the record filter applied to the current selection, so they are in list order with each matching record as often as it occurs. A record is shown exactly when it is in the list and matches the selection. |

## Left out

- Firebase is not part of this model. That covers initialisation, the authentication listener, sign-in and sign-out, and the `onSnapshot` subscriptions. Snapshots arrive through the `Receive...` methods. A write is an update to a field of `App`, and its outcome is a parameter.
- `addDoc` ids and record order: a new record's id is a parameter. Appending to `productionStore` stands for adding a document; the store's own ordering is not modelled.
- Clock and time zone: the current time and the local offset are parameters. Daylight-saving changes within a task are not modelled. `toISOString` dates and timestamps are opaque strings passed in.
- Login (`handleLogin`, `handleLoginChange`, `handleLogout`), the `loading` and `isSubmitting` flags, the drop-down's open/closed state and the outside-click listener, and all rendering other than the extracted expressions: these are UI and I/O with no rule to state.
- The operator cell of the record table (`operarioEmail || operarioId.substring(0, 8) + '...' || 'N/A'`) is display formatting and is not modelled.
- Builtins.ToNumber: models decimal numerals with an optional sign and fraction. Exponents, hexadecimal, binary and octal forms, `Infinity` and digit separators read as NaN here, whereas JavaScript accepts some of them.
- Points.DerivePoints: computes over exact reals, while JavaScript multiplies IEEE doubles; rounding is not modelled. `JsNumber` has no Infinity either. In the program a quantity of `"Infinity"` or `"1e999"` with no matching entry gives `0 * Infinity`, which is NaN (src/App.js:254-255). So "0 points without a match, whatever the quantity" holds in the model only.
- Points.EntryMatches: a `pointsData` document that lacks a triple field is read with `""` in its place. In the program `undefined === ''` is false (src/App.js:253), so such a document never matches. In the model it matches a form whose corresponding field is blank.
- Builtins.ToLower: covers ASCII and Latin-1 capital letters only; other Unicode case mappings are not modelled.
- Each handler runs to completion in the model. The source awaits every write, so an event that arrives between a submit and the write's settlement is not modelled. An example is a form edit that the success branch's reset then discards.
- The store client rejects `undefined` field values by default. `horarioInicio` and `horarioFin` (src/App.js:299-300) stay undefined until the timer has run, so in the program a production submit before timing fails. In the model the outcome is the free `writeError` parameter, so that submit can succeed.
- Builtins.LexLess: `localeCompare` is modelled as code-point lexicographic order. This agrees with collation for ISO `YYYY-MM-DD` dates, but not for locale-dependent orderings in general.
- Builtins.IsWhitespace: uses the ECMAScript white-space and line-terminator characters. Strings are sequences of Unicode characters, not UTF-16 code units.
