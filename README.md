# GestorDeNotas — a verified model of the note store and its view pipeline

GestorDeNotas is a browser note manager. The user writes a note with a text, a date and a priority from 1 (low) to 3 (high). The notes are listed under one of three filters taken from the location hash: `#hoy` (today), `#semana` (the coming week) or `#todas` (all). The list is ordered by priority, then date, then text. A card can be completed or deleted. A secondary "daily panel" window can ask for a note to be deleted. Everything lives in one global `estado` object and is saved to `localStorage`.

This project models the logic of `src/app.js` in Dafny:

- `notas.dfy` (module `Notas`): the `Nota` record and `crearNota`. `crearNota` trims the text and rejects empty text or an invalid date with the error "Datos de nota inválidos". It clamps the priority into 1..3, where a non-numeric value or 0 gives 1. It stores the date as `YYYY-MM-DD`.
- `filtros.dfy` (module `Filtros`): `obtenerFiltroDesdeHash` and `filtrarNotas`. `filtrarNotas` appears twice: `FiltrarNotasAsWritten` is the code, whose `#semana` window starts at the current instant and so drops today's notes after midnight; `FiltrarNotas` is the corrected filter whose window starts at today's midnight (see ## Findings). `Vista` and the panel snapshot follow the code.
- `orden.dfy` (module `Orden`): `ordenarNotas`, which sorts a copy with the source's three-key comparator. The sort is modelled as a stable insertion sort because `Array.prototype.sort` is stable.
- `html.dfy` (module `Html`): `escapeHtml` and a decoder for it.
- `storage.dfy` (module `Storage`): `localStorage` as a map from keys to stored items, with `guardarNotas`, `cargarNotas`, `removeItem` and the saved filter.
- `app.dfy` (module `App`): the global `estado` as the class `Estado`. Its fields are `notas`, `filtro` and the browser storage `local`. Its methods are the handlers that change it: `onSubmitNota`, `onAccionNota`, the `message` listener, `limpiarDatos`, `cargarNotas`, `guardarNotas` and `hashchange`. The module also holds the pure sequence operations those handlers use (`findIndex`, `splice`, the completed flag, `filter` by id) and `Vista`, the list `render` shows.
- Support modules: `dates.dfy` holds calendar days, the `YYYY-MM-DD` text form and day numbers on the `Date` time line. `text.dfy` holds JavaScript `trim`, lower-casing and string comparison. `seqs.dfy` holds the `filter` of arrays. `wrappers.dfy` holds `Option` and `Result`.

Inputs from outside the program are parameters:

- the answer to `confirm` is a `bool`;
- the random note id is a string;
- the date typed in the form is an `Option<Day>`, where `None` means `new Date` rejects it;
- the priority field is an `Option<int>`, where `None` is the `NaN` of `Number`;
- the current time is a `Clock`: today's UTC day and the milliseconds elapsed in it.

The `message` listener does not check the sender's origin. The model does not either: any `BORRADO` object deletes. That handler also does not call `guardarNotas`, so a note deleted from the panel is still in storage. The model keeps this: `OnMensaje` leaves `local` unchanged.

The invariant `Estado.Valid()` says two things. Every note in memory is one `crearNota` could build. Every note list in storage is too. Every handler preserves it: `ensures old(Valid()) ==> Valid()`.

## Model

| member | source | states |
|---|---|---|
| `Notas.NormalizarPrioridad` | src/app.js:55 | The priority is always in 1..3. A missing/NaN value or 0 gives 1. A value in 1..3 is kept. Above 3 gives 3. A negative value gives 1. |
| `Notas.CrearNota` | src/app.js:53-65 | Fails, with the message "Datos de nota inválidos", exactly when the trimmed text is empty or the date is invalid. On success the note has the given id and the trimmed text. Its `fecha` reads back as the input day. Its priority is the normalised one. It is not completed. It is well formed: non-empty trimmed text, valid date, priority in 1..3. |
| `Text.Trim` | src/app.js:54 | The result is the slice of the input after its leading whitespace. Only whitespace follows it. It neither starts nor ends with whitespace. It is empty exactly when the input is all whitespace. |
| `Text.TrimIdempotent` | src/app.js:54 | Trimming twice is trimming once, so a created note's text is already trimmed. |
| `Text.LeadingWhitespace` | src/app.js:54 | Counts the whitespace prefix: every character before the count is whitespace and the next one is not. |
| `Text.TrailingWhitespace` | src/app.js:54 | Counts the whitespace suffix: every character after the cut is whitespace and the one before it is not. |
| `Text.TrimFixedIffTrimmed` | src/app.js:54 | `trim` leaves a string unchanged exactly when neither of its ends is whitespace. |
| `Dates.FormatIso` | src/app.js:62 | A day's text form is ten characters `DDDD-DD-DD`. |
| `Dates.ParseFormatIso` | src/app.js:56-62 | Reading the stored `YYYY-MM-DD` form of a day gives back that day. |
| `Dates.FormatParseIso` | src/app.js:62 | Every string that reads as a day is exactly that day's stored form. |
| `Dates.FormatIsoInjective` | src/app.js:62 | Different days are stored as different strings. |
| `Dates.DayNumberIncreasing` | src/app.js:95 | A later calendar day is a later instant of `new Date("YYYY-MM-DD")`. |
| `Dates.DayNumberInjective` | src/app.js:117 | Two days at the same instant are the same day, so a zero date difference means the same date. |
| `Dates.InstantOf` | src/app.js:95 | A stored date has an instant exactly when it reads as a day; otherwise it is `NaN`. |
| `Dates.ParseIso` | src/app.js:56-57 | The model of `new Date` accepts a stored date only when it is ten characters `YYYY-MM-DD` naming a real calendar day (year 0000-9999, month 1-12, a day that exists in that month); anything else is an invalid date. |
| `Text.ToLower` | src/app.js:71 | Lower-casing keeps the length, leaves no capital letter, and keeps every character the same up to case. |
| `Text.ToLowerEqualIff` | src/app.js:71 | Two strings lower-case to the same string exactly when they differ only in the case of their letters. |
| `Filtros.FiltroDesdeHash` | src/app.js:70-73 | The filter is `#hoy` or `#semana` exactly when the lower-cased hash is that tag. Otherwise it is `#todas`. An empty hash gives `#todas`. A non-`#todas` result's tag is the lower-cased hash. |
| `Filtros.FiltroIgnoraMayusculas` | src/app.js:71 | Hashes that differ only in the case of their letters select the same filter. |
| `Filtros.FiltroDesdeEtiqueta` | src/app.js:40-41 | The stored tag of a filter reads back as that filter. |
| `Filtros.FiltroDesdeEtiquetaSinCaso` | src/app.js:70-73 | Any spelling of a tag up to letter case, such as `#HOY` or `#Semana`, selects that filter. |
| `Filtros.FiltrarNotas` | src/app.js:83-100 | The corrected `filtrarNotas`, with the `#semana` window starting at today's midnight (see ## Findings). The result is an order-preserving subsequence of the input. `#todas` returns the input itself. Under `#hoy` it holds exactly the notes whose `fecha` equals today's `YYYY-MM-DD`, each as often as in the input. Under `#semana` it holds exactly the notes inside the corrected window. |
| `Filtros.EnSemanaDias` | src/app.js:90-96 | The corrected `#semana` window (see ## Findings) keeps exactly the notes dated today through today + 7 days, as the comment at line 90 intends. The code's own test is `Filtros.EnSemanaAsWrittenDias`. |
| `Filtros.FiltrarSemanaAsWritten` | src/app.js:91-96 | The `#semana` branch as written: an order-preserving subsequence holding exactly the notes whose instant lies between now and now + 7 days. |
| `Filtros.EnSemanaAsWrittenDias` | src/app.js:91-96 | Past midnight, the code's test keeps exactly the days strictly after today up to today + 7. |
| `Filtros.EnSemanaAsWritten` | src/app.js:95 | The code's `#semana` test `new Date(n.fecha) >= hoy && <= fin`: a note passes only if its date is valid, and every note it passes is inside the corrected window too. |
| `Filtros.HoyDentroDeSemana` | src/app.js:88-96 | With the corrected `#semana` window (see ## Findings), every note shown under `#hoy` is also shown under `#semana`. The code does not have this property: see `Filtros.SemanaAsWrittenPierdeHoy`. |
| `Filtros.FiltrarNotasAsWritten` | src/app.js:83-100 | `filtrarNotas` as the code states it: an order-preserving subsequence; `#todas` returns the input; `#hoy` keeps exactly today's notes; `#semana` keeps exactly the notes whose instant lies between now and now + 7 days, each as often as in the input. |
| `Filtros.SemanaAsWrittenDentroDeCorregida` | src/app.js:91-96 | The code's `#semana` view is contained in the corrected one, and the two hold the same notes when the clock reads exactly midnight. |
| `Filtros.SemanaAsWrittenPierdeHoy` | src/app.js:88-96 | As written, a note dated today is shown under `#hoy` but missing under `#semana` whenever the clock is past midnight. |
| `Seqs.Filter` | src/app.js:88 | `filter` returns no more elements than it got, and every element it returns passes the test. |
| `Seqs.FilterIsSubsequence` | src/app.js:94-96 | `filter` keeps the relative order of what it keeps. |
| `Seqs.FilterCount` | src/app.js:94-96 | `filter` keeps every occurrence of each element that passes and no occurrence of one that fails. |
| `Seqs.FilterKeepsAll` | src/app.js:266 | A `filter` whose test holds of every element returns the input. |
| `Seqs.FilterRemovesOne` | src/app.js:266 | A `filter` that rejects exactly one position removes just that element. |
| `Text.LexCompare` | src/app.js:119 | The comparison is -1, 0 or 1, and 0 exactly for equal strings. |
| `Text.LexCompareAntisymmetric` | src/app.js:119 | Swapping the two strings negates the comparison. |
| `Text.LexCompareTransitive` | src/app.js:119 | "Not after" is transitive. |
| `Orden.Comparar` | src/app.js:114-119 | The comparator: a higher priority goes first. With equal priorities and two valid dates, a different instant orders by date, earliest first. With equal priorities and an invalid date (`NaN` difference), the order is the text comparison. It is 0 exactly when priority and text are equal and, for two valid dates, the instants are too. |
| `Orden.CompararAntisimetrico` | src/app.js:114-119 | Swapping two notes negates the comparator, for all notes. |
| `Orden.CompararTransitivo` | src/app.js:114-119 | For notes with valid dates, the comparator's "not after" is transitive. |
| `Orden.CompararClaves` | src/app.js:114-119 | For valid dates, "not after" implies one of three things. The priority is higher. Or the priority is equal and the day is earlier. Or priority and date are equal and the text is not after. |
| `Orden.CompararPreorden` | src/app.js:114-119 | The comparator is antisymmetric on all notes and transitive on notes with valid dates, which is what a consistent `sort` comparator must be. |
| `Sort.Insert` | src/app.js:112 | Inserting adds exactly the one element: one longer, the multiset grows by that element. |
| `Sort.InsertionSort` | src/app.js:112 | `sort` returns a sequence of the same length holding the same elements with the same multiplicities. |
| `Sort.InsertSorted` | src/app.js:112 | Inserting into a sorted sequence keeps it sorted, for a comparator consistent on the elements. |
| `Sort.InsertionSortSorted` | src/app.js:112 | With a consistent comparator, the result is sorted: no pair is out of order. |
| `Sort.InsertAtEnd` | src/app.js:112 | An element that nothing already placed must follow goes after all of them: ties keep arrival order, as a stable `sort` must. |
| `Sort.InsertionSortOfSorted` | src/app.js:112 | Sorting a sorted sequence returns it unchanged. |
| `Orden.OrdenarNotas` | src/app.js:110-121 | The sorted copy has the same notes with the same multiplicities. |
| `Orden.OrdenarNotasOrdenada` | src/app.js:110-121 | When every date is valid, the sorted copy is sorted by the comparator. |
| `Orden.OrdenarNotasOrdena` | src/app.js:110-121 | When every date is valid, the result is a permutation of the input. Each note precedes every later one by priority descending, then date ascending, then text ascending. |
| `Orden.OrdenarNotasOrdenadaFija` | src/app.js:110-121 | Sorting a list already sorted by the comparator returns it unchanged. |
| `Orden.OrdenarNotasIdempotente` | src/app.js:110-121 | When every date is valid, re-sorting the sorted view changes nothing. |
| `App.Vista` | src/app.js:137 | The list `render` draws, built on the code's `filtrarNotas`: a selection of the stored notes; all of them under `#todas`; exactly today's notes under `#hoy`; exactly the notes between now and now + 7 days under `#semana`, each as often as stored. When the store is well formed, it is in priority/date/text order. |
| `App.VistaOrdenada` | src/app.js:137 | In every state satisfying `Estado.Valid()`, which every handler preserves, the list `render` draws is in priority/date/text order. |
| `Html.Entity` | src/app.js:280 | Each of the five special characters becomes an `&...;` entity. Every other character is kept. |
| `Html.EscapeHtml` | src/app.js:276-284 | The output never contains a raw `<`, `>`, `"` or `'`, and it is at least as long as the input. Text without special characters is returned unchanged. |
| `Html.EscapeHtmlAppend` | src/app.js:278 | Escaping works character by character: it distributes over concatenation. |
| `Html.UnescapeHtml` | src/app.js:280 | Decoding never lengthens the text. |
| `Html.UnescapeEntity` | src/app.js:280 | Decoding an entity followed by any text gives back its character first. |
| `Html.UnescapeEscape` | src/app.js:276-284 | Round trip: decoding the escaped text gives back the original text. |
| `Html.EscapeHtmlInjective` | src/app.js:276-284 | Different texts escape differently. |
| `Storage.Guardar` | src/app.js:292-299 | `setItem("notas", JSON.stringify(notas))`: the `"notas"` item holds the note list, and every other key is untouched. |
| `Storage.GuardarFiltro` | src/app.js:41 | `setItem("filtro", ...)`: the `"filtro"` item holds the filter's tag, and every other key is untouched. |
| `Storage.QuitarNotas` | src/app.js:355 | `removeItem("notas")`: the `"notas"` item is gone, and every other key is untouched. |
| `Storage.Cargar` | src/app.js:307-317 | `cargarNotas`: a missing item or an empty string keeps the notes in memory; a stored note list replaces them; a string that does not parse gives the empty list. |
| `Storage.CargarTrasGuardar` | src/app.js:292-317 | Loading after `guardarNotas` gives back exactly the saved notes. |
| `Storage.CargarTrasQuitar` | src/app.js:307-355 | After `removeItem("notas")`, loading keeps the notes in memory. |
| `Storage.CargarTrasGuardarFiltro` | src/app.js:41 | Saving the filter does not change what loading the notes gives. |
| `Storage.CargarBienFormadas` | src/app.js:307-317 | Loading from well-formed storage into a well-formed store gives well-formed notes. |
| `App.IndiceDe` | src/app.js:214 | `findIndex` returns -1 exactly when no note has the id. Otherwise it returns the first index holding the id. |
| `App.EliminarEn` | src/app.js:219 | `splice(i, 1)` removes the note at `i`. Earlier notes stay in place and later ones shift down by one. The multiset loses exactly that note. |
| `App.Completar` | src/app.js:222 | Only the note at `i` changes. Its flag becomes true and its id, text, date and priority stay. |
| `App.QuitarId` | src/app.js:266 | The result is an order-preserving subsequence. It has no note with the id and keeps every other note as often as before. |
| `App.EliminarEnComoQuitarId` | src/app.js:214-266 | While ids are unique, deleting a card and deleting on a `BORRADO` message remove the same note. |
| `App.BienFormadasAgregar` | src/app.js:190 | Appending a created note keeps the store well formed. |
| `App.BienFormadasEliminarEn` | src/app.js:219 | Deleting a note keeps the store well formed. |
| `App.BienFormadasCompletar` | src/app.js:222 | Completing a note keeps the store well formed. |
| `App.BienFormadasQuitarId` | src/app.js:266 | Filtering notes out by id keeps the store well formed. |
| `App.FiltrarNotasMenor` | src/app.js:83-100 | The code's `filtrarNotas` never adds a note. |
| `App.OrdenarBienFormadas` | src/app.js:137 | Sorting a selection of a well-formed store puts it in key order. |
| `App.Estado.constructor` | src/app.js:6-9 | The initial state has no notes and the filter of the current hash. |
| `App.Estado.OnHashChange` | src/app.js:39-43 | The filter is re-derived from the new hash and saved under `"filtro"`. The notes are unchanged. |
| `App.Estado.GuardarNotas` | src/app.js:292-299 | The notes are written under `"notas"`, and loading them back gives the same notes. |
| `App.Estado.CargarNotas` | src/app.js:307-317 | A missing item or an empty string keeps the notes. A stored note list replaces them. A string that does not parse empties them. |
| `App.Estado.OnSubmitNota` | src/app.js:182-198 | On a successful `crearNota` the store is the old store plus the new note at the end, and it is saved. On failure the store and storage are unchanged. |
| `App.Accion` | src/app.js:218-222 | The effect of a card button on the found index: a confirmed `borrar` removes exactly that note (one shorter, the multiset loses it); otherwise the length stays and every note keeps its id, text, date and priority; an action other than `borrar` or `completar` changes nothing. |
| `App.AccionEfecto` | src/app.js:218-222 | On the found index, a confirmed `borrar` is `splice(idx, 1)`, `completar` sets that note's flag, and anything else leaves the notes as they were. Each keeps the store well formed. |
| `App.Estado.OnAccionNota` | src/app.js:209-228 | An unknown id changes neither the notes nor storage. A known id applies the action at its first index (see `App.AccionEfecto`), saves the new notes under `"notas"`, and keeps the state valid. |
| `App.Estado.OnMensaje` | src/app.js:262-269 | A `BORRADO` object with an id removes every note with that id and keeps the rest in order. Anything else leaves the notes unchanged. Storage is not written. |
| `App.Estado.LimpiarDatos` | src/app.js:353-359 | When confirmed, the notes and the stored item are cleared. When declined, nothing changes. |

## Left out

- DOM building in `render`, the click/submit wiring and the `DOMContentLoaded` setup are UI and are left out. That setup includes copying a saved filter back into `location.hash` (src/app.js:15-34, 131-159, 362). `App.Vista` is the list `render` draws.
- `formatearFecha` is left out because it relies on `Intl` locale formatting.
- `abrirPanelDiario` is left out: it is a `window.open`, a 400 ms timer and a `postMessage`. The snapshot it posts (src/app.js:246) is `Filtros.FiltrarNotasAsWritten` of the notes under the active filter.
- `alert` and `console` output are left out. `confirm` is a boolean parameter.
- Cookie helpers (`setCookie`, `getCookie`, `guardarIdioma`) are browser glue and are left out.
- JSON encoding itself is left out. A stored item is either the encoding of a note list or a string that does not parse. A string that parses to something other than a note array is not modelled. The `catch` for a failing `setItem` (quota) is not modelled.
- Note ids come from `Math.random` and are a parameter. Their uniqueness is not checked by the code, and the model does not assume it, except in `App.EliminarEnComoQuitarId`.
- JavaScript `Date` parsing is reduced to strict `YYYY-MM-DD` strings for years 0000-9999. Other formats the engine accepts, and the six-digit years of `toISOString`, are not modelled.
- A `YYYY-MM-DD` string whose day does not exist in its month, such as `2025-02-30`, depends on the engine: V8 rolls it over to the next month, others give `NaN`. The model treats it as an invalid date. `crearNota` always stores `toISOString` output, so only a note read from edited storage can hold such a date.
- Time is all UTC, as `toISOString` and `new Date("YYYY-MM-DD")` are. The local-time `setDate(+7)` is exactly 7 × 86 400 000 ms, so daylight-saving shifts are not modelled.
- `Number()` of the priority field is an `Option<int>`. A fractional value such as 2.5, which the code would keep, is not modelled.
- `localeCompare` is plain code-point order (Dafny characters are Unicode scalar values, so this differs from UTF-16 code-unit order for astral characters against U+E000–U+FFFF); locale collation rules are not modelled.
- `toLowerCase` maps only ASCII letters. It is used only to compare with the three all-ASCII tags, and no other character lower-cases to a single character of those tags.
- Notes are values. JavaScript notes are shared objects that `completada = true` mutates in place. Nothing in the modelled core holds a second reference, so aliasing is not modelled.
- Orden.OrdenarNotasOrdena: sortedness is proved only when every note has a valid date. With an invalid date the comparator's `NaN` makes it inconsistent, and the order `sort` produces is implementation-defined.
- Orden.OrdenarNotas: stability holds by construction of the insertion but is not stated as a lemma. Only `Sort.InsertAtEnd` states it for a note that ties with the last ones.
- `src/app.js` has no inline editing, no snapshot history, no way to un-complete a note and no year-range or not-before-today date check; none of these is modelled.

## Findings

| source | as written | input that shows it | evidently intended | confidence | as-written member | corrected member |
|---|---|---|---|---|---|---|
| src/app.js:91-96 | `#semana` keeps a note when `new Date(n.fecha) >= hoy`. `hoy` is the current instant and `new Date(n.fecha)` is UTC midnight of the note's day, so today's notes fail the lower bound. | Clock at 2025-06-01 10:00 UTC with a note dated `2025-06-01`: the note is listed under `#hoy` but not under `#semana`. | The window starts at today's midnight, so it covers today through today + 7. The comment at src/app.js:90 says "incluyendo hoy" (including today). | high; not executed | `Filtros.FiltrarNotasAsWritten` | `Filtros.FiltrarNotas` |
