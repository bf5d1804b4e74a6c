/** The global `estado` of the note manager and the handlers that change
    it: form submission, the card buttons, messages from the daily panel,
    clearing, loading and saving. */
module App {
  import opened Wrappers
  import opened Dates
  import opened Notas
  import opened Filtros
  import opened Orden
  import opened Storage
  import opened Seqs

  /** The `data` of a `message` event, as far as the handler looks at it:
      not an object (or `null`), or an object with `tipo` and `id`
      (`None` when missing or not a string). */
  datatype Dato = NoObjeto | Objeto(tipo: Option<string>, id: Option<string>)

  const AccionBorrar: string := "borrar"
  const AccionCompletar: string := "completar"
  const TipoBorrado: string := "BORRADO"

  /** `notas.findIndex(n => n.id === id)`. */
  function IndiceDe(notas: seq<Nota>, id: string): (i: int)
    ensures -1 <= i < |notas|
    ensures i == -1 <==> forall k :: 0 <= k < |notas| ==> notas[k].id != id
    ensures i >= 0 ==> notas[i].id == id && forall k :: 0 <= k < i ==> notas[k].id != id
  {
    if notas == [] then -1
    else if notas[0].id == id then 0
    else
      var j := IndiceDe(notas[1..], id);
      if j == -1 then -1 else j + 1
  }

  /** `notas.splice(i, 1)`: the note at `i` goes, the rest keep their order. */
  function EliminarEn(notas: seq<Nota>, i: int): (r: seq<Nota>)
    requires 0 <= i < |notas|
    ensures |r| == |notas| - 1
    ensures forall k :: 0 <= k < i ==> r[k] == notas[k]
    ensures forall k :: i <= k < |r| ==> r[k] == notas[k + 1]
    ensures multiset(r) == multiset(notas) - multiset{notas[i]}
  {
    assert notas == notas[..i] + [notas[i]] + notas[i + 1..];
    notas[..i] + notas[i + 1..]
  }

  /** `notas[i].completada = true`: only that note changes, and only in its flag. */
  function Completar(notas: seq<Nota>, i: int): (r: seq<Nota>)
    requires 0 <= i < |notas|
    ensures |r| == |notas|
    ensures r[i].completada
    ensures r[i].id == notas[i].id && r[i].texto == notas[i].texto
    ensures r[i].fecha == notas[i].fecha && r[i].prioridad == notas[i].prioridad
    ensures forall k :: 0 <= k < |notas| && k != i ==> r[k] == notas[k]
  {
    notas[i := notas[i].(completada := true)]
  }

  /** The test `n => n.id !== id`. */
  function OtroId(id: string): Nota -> bool
  {
    (n: Nota) => n.id != id
  }

  /** `notas.filter(n => n.id !== id)`. */
  function QuitarId(notas: seq<Nota>, id: string): (r: seq<Nota>)
    ensures IsSubsequence(r, notas)
    ensures forall n: Nota :: multiset(r)[n] == if n.id == id then 0 else multiset(notas)[n]
  {
    FilterIsSubsequence(notas, OtroId(id));
    FilterCount(notas, OtroId(id));
    Filter(notas, OtroId(id))
  }

  predicate IdsUnicos(notas: seq<Nota>)
  {
    forall i, j :: 0 <= i < j < |notas| ==> notas[i].id != notas[j].id
  }

  /** While ids are unique, deleting from a card's button and deleting on
      a `BORRADO` message remove the same note. */
  lemma EliminarEnComoQuitarId(notas: seq<Nota>, id: string)
    requires IdsUnicos(notas) && IndiceDe(notas, id) >= 0
    ensures EliminarEn(notas, IndiceDe(notas, id)) == QuitarId(notas, id)
  {
    var i := IndiceDe(notas, id);
    FilterRemovesOne(notas, i, OtroId(id));
  }

  lemma BienFormadasAgregar(notas: seq<Nota>, x: Nota)
    requires TodasBienFormadas(notas) && BienFormada(x)
    ensures TodasBienFormadas(notas + [x])
  {
  }

  lemma BienFormadasEliminarEn(notas: seq<Nota>, i: int)
    requires 0 <= i < |notas|
    ensures TodasBienFormadas(notas) ==> TodasBienFormadas(EliminarEn(notas, i))
  {
    if TodasBienFormadas(notas) {
      var r := EliminarEn(notas, i);
      forall k | 0 <= k < |r| ensures BienFormada(r[k]) {
        if k < i { assert r[k] == notas[k]; } else { assert r[k] == notas[k + 1]; }
      }
    }
  }

  lemma BienFormadasCompletar(notas: seq<Nota>, i: int)
    requires 0 <= i < |notas|
    ensures TodasBienFormadas(notas) ==> TodasBienFormadas(Completar(notas, i))
  {
    if TodasBienFormadas(notas) {
      var r := Completar(notas, i);
      forall k | 0 <= k < |r| ensures BienFormada(r[k]) {
        if k == i {
          assert BienFormada(notas[i]);
        } else {
          assert r[k] == notas[k];
        }
      }
    }
  }

  lemma BienFormadasQuitarId(notas: seq<Nota>, id: string)
    requires TodasBienFormadas(notas)
    ensures TodasBienFormadas(QuitarId(notas, id))
  {
    var r := QuitarId(notas, id);
    forall k | 0 <= k < |r| ensures BienFormada(r[k]) {
      assert multiset(r)[r[k]] == multiset(notas)[r[k]];
      assert r[k] in multiset(r);
      assert r[k] in notas;
    }
  }

  /** The change `onAccionNota` makes to the note at `i`: a confirmed
      `borrar` splices it out, `completar` sets its flag, anything else
      leaves the notes alone. The two tests are exclusive, since the two
      tags differ. */
  function Accion(notas: seq<Nota>, i: int, acc: string, confirmado: bool): (r: seq<Nota>)
    requires 0 <= i < |notas|
    ensures |r| == if acc == AccionBorrar && confirmado then |notas| - 1 else |notas|
    ensures acc == AccionBorrar && confirmado ==> multiset(r) == multiset(notas) - multiset{notas[i]}
    ensures !(acc == AccionBorrar && confirmado) ==>
              forall k :: 0 <= k < |r| ==>
                r[k].id == notas[k].id && r[k].texto == notas[k].texto
                && r[k].fecha == notas[k].fecha && r[k].prioridad == notas[k].prioridad
    ensures acc != AccionBorrar && acc != AccionCompletar ==> r == notas
  {
    if acc == AccionBorrar && confirmado then EliminarEn(notas, i)
    else if acc == AccionCompletar then Completar(notas, i)
    else notas
  }

  /** Which of the three outcomes a button press has, and that none of
      them breaks well-formedness. */
  lemma AccionEfecto(notas: seq<Nota>, i: int, acc: string, confirmado: bool)
    requires 0 <= i < |notas|
    ensures acc == AccionBorrar && confirmado ==> Accion(notas, i, acc, confirmado) == EliminarEn(notas, i)
    ensures acc == AccionCompletar ==> Accion(notas, i, acc, confirmado) == Completar(notas, i)
    ensures !(acc == AccionBorrar && confirmado) && acc != AccionCompletar ==> Accion(notas, i, acc, confirmado) == notas
    ensures TodasBienFormadas(notas) ==> TodasBienFormadas(Accion(notas, i, acc, confirmado))
  {
    assert AccionBorrar != AccionCompletar by {
      assert AccionBorrar[0] != AccionCompletar[0];
    }
    BienFormadasEliminarEn(notas, i);
    BienFormadasCompletar(notas, i);
  }

  class Estado {
    var notas: seq<Nota>
    var filtro: Filtro
    /** The browser's `localStorage`. */
    var local: LocalStorage

    /** Every note in memory, and every note list in storage, is one
        `crearNota` could have built. */
    ghost predicate Valid()
      reads this
    {
      TodasBienFormadas(notas) && AlmacenBienFormado(local)
    }

    /** `estado` as the script starts: no notes, the filter of the current hash. */
    constructor (hash: string, local: LocalStorage)
      ensures notas == [] && filtro == FiltroDesdeHash(hash) && this.local == local
      ensures AlmacenBienFormado(local) ==> Valid()
    {
      notas := [];
      filtro := FiltroDesdeHash(hash);
      this.local := local;
    }

    /** The `hashchange` listener: re-derive the filter and store it. */
    method OnHashChange(hash: string)
      modifies this
      ensures filtro == FiltroDesdeHash(hash)
      ensures local == GuardarFiltro(old(local), filtro)
      ensures notas == old(notas)
      ensures old(Valid()) ==> Valid()
    {
      filtro := FiltroDesdeHash(hash);
      local := GuardarFiltro(local, filtro);
    }

    /** `guardarNotas`. */
    method GuardarNotas()
      modifies this`local
      ensures local == Guardar(old(local), notas)
      ensures Cargar(local, []) == notas
      ensures TodasBienFormadas(notas) ==> AlmacenBienFormado(local)
    {
      local := Guardar(local, notas);
    }

    /** `cargarNotas`. */
    method CargarNotas()
      modifies this`notas
      ensures notas == Cargar(local, old(notas))
      ensures old(Valid()) ==> Valid()
    {
      if old(Valid()) {
        CargarBienFormadas(local, notas);
      }
      notas := Cargar(local, notas);
    }

    /** The store part of `onSubmitNota`: on success the new note is
        appended and saved; on failure nothing changes. */
    method OnSubmitNota(texto: string, fecha: Option<Day>, prioridad: Option<int>, id: string)
      returns (res: Result<Nota, string>)
      modifies this`notas, this`local
      ensures res == CrearNota(texto, fecha, prioridad, id)
      ensures res.Ok? ==> notas == old(notas) + [res.value] && local == Guardar(old(local), notas)
      ensures res.Err? ==> notas == old(notas) && local == old(local)
      ensures filtro == old(filtro)
      ensures old(Valid()) ==> Valid()
    {
      res := CrearNota(texto, fecha, prioridad, id);
      if res.Ok? {
        ghost var antes := notas;
        if TodasBienFormadas(notas) {
          BienFormadasAgregar(notas, res.value);
        }
        notas := notas + [res.value];
        assert TodasBienFormadas(antes) ==> TodasBienFormadas(notas);
        // `guardarNotas()`
        local := Guardar(local, notas);
      }
    }

    /** `onAccionNota` for the button tagged `acc` of the note `id`; the
        answer to `confirm` is `confirmado`. */
    method OnAccionNota(id: string, acc: string, confirmado: bool)
      modifies this`notas, this`local
      ensures IndiceDe(old(notas), id) < 0 ==> notas == old(notas) && local == old(local)
      ensures IndiceDe(old(notas), id) >= 0 ==>
                notas == Accion(old(notas), IndiceDe(old(notas), id), acc, confirmado)
                && local == Guardar(old(local), notas)
      ensures old(Valid()) ==> Valid()
    {
      var idx := IndiceDe(notas, id);
      if idx < 0 {
        return;
      }
      ghost var antes := notas;
      AccionEfecto(notas, idx, acc, confirmado);
      notas := Accion(notas, idx, acc, confirmado);
      assert TodasBienFormadas(antes) ==> TodasBienFormadas(notas);
      // `guardarNotas()`
      local := Guardar(local, notas);
    }

    /** The `message` listener: a `BORRADO` object removes every note with
        its id; anything else is ignored. Storage is not written. */
    method OnMensaje(dato: Dato)
      modifies this`notas
      ensures dato.Objeto? && dato.tipo == Some(TipoBorrado) && dato.id.Some? ==>
                notas == QuitarId(old(notas), dato.id.value)
      ensures !(dato.Objeto? && dato.tipo == Some(TipoBorrado) && dato.id.Some?) ==> notas == old(notas)
      ensures old(Valid()) ==> Valid()
    {
      match dato
      case NoObjeto =>
        return;
      case Objeto(tipo, id) =>
        if tipo == Some(TipoBorrado) {
          // A missing id matches no note, so the filter keeps them all.
          if id.Some? {
            if TodasBienFormadas(notas) {
              BienFormadasQuitarId(notas, id.value);
            }
            notas := QuitarId(notas, id.value);
          }
        }
    }

    /** `limpiarDatos`, with the answer to its `confirm`. */
    method LimpiarDatos(confirmado: bool)
      modifies this
      ensures confirmado ==> notas == [] && local == QuitarNotas(old(local))
      ensures !confirmado ==> notas == old(notas) && local == old(local)
      ensures filtro == old(filtro)
      ensures old(Valid()) ==> Valid()
    {
      if confirmado {
        local := QuitarNotas(local);
        notas := [];
      }
    }
  }

  lemma FiltrarNotasMenor(notas: seq<Nota>, filtro: Filtro, c: Clock)
    ensures multiset(FiltrarNotasAsWritten(notas, filtro, c)) <= multiset(notas)
  {
    var r := FiltrarNotasAsWritten(notas, filtro, c);
    forall n ensures multiset(r)[n] <= multiset(notas)[n] {
    }
  }

  lemma OrdenarBienFormadas(f: seq<Nota>, notas: seq<Nota>)
    requires multiset(f) <= multiset(notas)
    ensures TodasBienFormadas(notas) ==>
              forall i, j :: 0 <= i < j < |OrdenarNotas(f)| ==> PorClaves(OrdenarNotas(f)[i], OrdenarNotas(f)[j])
  {
    if TodasBienFormadas(notas) {
      forall n | n in f
        ensures FechaValida(n)
      {
        assert n in multiset(notas);
        var i :| 0 <= i < |notas| && notas[i] == n;
        assert BienFormada(notas[i]);
      }
      OrdenarNotasOrdena(f);
    }
  }

  /** What `render` lists: the notes the code's `filtrarNotas` keeps, sorted
      by `ordenarNotas`. Under `#semana` this is the now-based window. */
  function Vista(notas: seq<Nota>, filtro: Filtro, c: Clock): (r: seq<Nota>)
    ensures multiset(r) <= multiset(notas)
    ensures filtro == Todas ==> multiset(r) == multiset(notas)
    ensures filtro == Hoy ==>
      forall n :: multiset(r)[n] == if n.fecha == FormatIso(c.today) then multiset(notas)[n] else 0
    ensures filtro == Semana ==>
      forall n :: multiset(r)[n] == if EnSemanaAsWritten(n, c) then multiset(notas)[n] else 0
    ensures TodasBienFormadas(notas) ==> forall i, j :: 0 <= i < j < |r| ==> PorClaves(r[i], r[j])
  {
    var f := FiltrarNotasAsWritten(notas, filtro, c);
    FiltrarNotasMenor(notas, filtro, c);
    OrdenarBienFormadas(f, notas);
    OrdenarNotas(f)
  }

  /** In every reachable state the list `render` draws is in key order:
      highest priority first, then earliest date, then text. */
  lemma VistaOrdenada(e: Estado, c: Clock)
    requires e.Valid()
    ensures var r := Vista(e.notas, e.filtro, c);
            forall i, j :: 0 <= i < j < |r| ==> PorClaves(r[i], r[j])
  {
    assert TodasBienFormadas(e.notas);
  }
}
