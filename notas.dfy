/** The note record and its validated constructor `crearNota`. */
module Notas {
  import opened Wrappers
  import opened Text
  import opened Dates

  /** A note. `completada` stands for the optional flag, absent (false)
      until the note is completed. */
  datatype Nota = Nota(id: string, texto: string, fecha: string, prioridad: int, completada: bool)

  /** The message of the error `crearNota` throws. */
  const ErrorDatos: string := "Datos de nota inválidos"

  /** `new Date` accepts the note's date. Notes built by `crearNota` do;
      notes read back from storage need not. */
  predicate FechaValida(n: Nota)
  {
    InstantOf(n.fecha).Some?
  }

  /** What every note built by `crearNota` satisfies: trimmed non-empty
      text, a valid `YYYY-MM-DD` date and a priority in 1..3. */
  predicate BienFormada(n: Nota)
  {
    n.texto != [] && IsTrimmed(n.texto) && FechaValida(n) && 1 <= n.prioridad <= 3
  }

  /** Every note of `notas` is well formed. */
  predicate TodasBienFormadas(notas: seq<Nota>)
  {
    forall i {:trigger BienFormada(notas[i])} :: 0 <= i < |notas| ==> BienFormada(notas[i])
  }

  function Min(a: int, b: int): int { if a <= b then a else b }
  function Max(a: int, b: int): int { if a >= b then a else b }

  /** The priority `crearNota` stores: the number read from the field, with
      `NaN` (here `None`) and 0 replaced by 1, then clamped into 1..3. */
  function NormalizarPrioridad(prioridad: Option<int>): (p: int)
    ensures 1 <= p <= 3
    ensures prioridad.None? || prioridad == Some(0) ==> p == 1
    ensures prioridad.Some? && 1 <= prioridad.value <= 3 ==> p == prioridad.value
    ensures prioridad.Some? && prioridad.value > 3 ==> p == 3
    ensures prioridad.Some? && prioridad.value < 0 ==> p == 1
  {
    var n := match prioridad
      case Some(v) => if v != 0 then v else 1
      case None => 1;
    Max(1, Min(3, n))
  }

  /** `crearNota(texto, fecha, prioridad)`. The raw date arrives already
      read as a day (`None` when `new Date` rejects it) and the random id
      is a parameter. */
  function CrearNota(texto: string, fecha: Option<Day>, prioridad: Option<int>, id: string): (r: Result<Nota, string>)
    ensures r.Err? <==> Trim(texto) == [] || fecha.None?
    ensures r.Err? ==> r.error == ErrorDatos
    ensures r.Ok? ==> && r.value.id == id
                      && r.value.texto == Trim(texto)
                      && ParseIso(r.value.fecha) == fecha
                      && r.value.prioridad == NormalizarPrioridad(prioridad)
                      && !r.value.completada
                      && BienFormada(r.value)
  {
    var t := Trim(texto);
    var p := NormalizarPrioridad(prioridad);
    if t == [] || fecha.None? then Err(ErrorDatos)
    else
      ParseFormatIso(fecha.value);
      Ok(Nota(id, t, FormatIso(fecha.value), p, false))
  }
}
