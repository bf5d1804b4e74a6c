/** `localStorage` as the note manager uses it: a map from keys to stored
    strings, where the string under `"notas"` is the JSON text of a note
    list or something `JSON.parse` rejects. */
module Storage {
  import opened Notas
  import opened Filtros

  /** A stored string: the JSON text `JSON.stringify` made of `notas`, or
      any other string `s`, one that does not parse. */
  datatype Item = NotasJson(notas: seq<Nota>) | Texto(s: string)

  type LocalStorage = map<string, Item>

  const ClaveNotas: string := "notas"
  const ClaveFiltro: string := "filtro"

  /** `guardarNotas`: `setItem("notas", JSON.stringify(notas))`. */
  function Guardar(ls: LocalStorage, notas: seq<Nota>): (r: LocalStorage)
    ensures ClaveNotas in r && r[ClaveNotas] == NotasJson(notas)
    ensures forall k :: k != ClaveNotas ==> (k in r <==> k in ls) && (k in ls ==> r[k] == ls[k])
  {
    ls[ClaveNotas := NotasJson(notas)]
  }

  /** `setItem("filtro", filtro)`. */
  function GuardarFiltro(ls: LocalStorage, f: Filtro): (r: LocalStorage)
    ensures ClaveFiltro in r && r[ClaveFiltro] == Texto(Etiqueta(f))
    ensures forall k :: k != ClaveFiltro ==> (k in r <==> k in ls) && (k in ls ==> r[k] == ls[k])
  {
    ls[ClaveFiltro := Texto(Etiqueta(f))]
  }

  /** `removeItem("notas")`. */
  function QuitarNotas(ls: LocalStorage): (r: LocalStorage)
    ensures ClaveNotas !in r
    ensures forall k :: k != ClaveNotas ==> (k in r <==> k in ls) && (k in ls ==> r[k] == ls[k])
  {
    ls - {ClaveNotas}
  }

  /** `cargarNotas`: the notes after reading `"notas"`. A missing item or
      an empty string keeps the `actuales`; a string that does not parse
      gives the empty list. */
  function Cargar(ls: LocalStorage, actuales: seq<Nota>): (r: seq<Nota>)
    ensures ClaveNotas !in ls || ls[ClaveNotas] == Texto("") ==> r == actuales
    ensures ClaveNotas in ls && ls[ClaveNotas].NotasJson? ==> r == ls[ClaveNotas].notas
    ensures ClaveNotas in ls && ls[ClaveNotas].Texto? && ls[ClaveNotas].s != "" ==> r == []
  {
    if ClaveNotas !in ls then actuales
    else match ls[ClaveNotas]
      case NotasJson(notas) => notas
      case Texto(s) => if s == "" then actuales else []
  }

  /** Saving and loading round-trip. */
  lemma CargarTrasGuardar(ls: LocalStorage, notas: seq<Nota>, actuales: seq<Nota>)
    ensures Cargar(Guardar(ls, notas), actuales) == notas
  {
  }

  /** After the notes item is removed, loading keeps what is in memory. */
  lemma CargarTrasQuitar(ls: LocalStorage, actuales: seq<Nota>)
    ensures Cargar(QuitarNotas(ls), actuales) == actuales
  {
  }

  /** Saving the filter leaves the stored notes alone. */
  lemma CargarTrasGuardarFiltro(ls: LocalStorage, f: Filtro, actuales: seq<Nota>)
    ensures Cargar(GuardarFiltro(ls, f), actuales) == Cargar(ls, actuales)
  {
  }

  /** What is stored under `"notas"`, if it is a note list, is well formed. */
  predicate AlmacenBienFormado(ls: LocalStorage)
  {
    ClaveNotas in ls && ls[ClaveNotas].NotasJson? ==> TodasBienFormadas(ls[ClaveNotas].notas)
  }

  lemma CargarBienFormadas(ls: LocalStorage, actuales: seq<Nota>)
    requires AlmacenBienFormado(ls) && TodasBienFormadas(actuales)
    ensures TodasBienFormadas(Cargar(ls, actuales))
  {
  }
}
