/** The active filter, read from the location hash, and `filtrarNotas`. */
module Filtros {
  import opened Wrappers
  import opened Text
  import opened Dates
  import opened Notas
  import opened Seqs

  /** The three values `estado.filtro` can hold. */
  datatype Filtro = Hoy | Semana | Todas

  function Etiqueta(f: Filtro): string
  {
    match f
    case Hoy => "#hoy"
    case Semana => "#semana"
    case Todas => "#todas"
  }

  /** `obtenerFiltroDesdeHash`: the lower-cased hash when it is on the
      allow-list, otherwise (and for an empty hash) `#todas`. */
  function FiltroDesdeHash(hash: string): (f: Filtro)
    ensures f == Hoy <==> ToLower(hash) == "#hoy"
    ensures f == Semana <==> ToLower(hash) == "#semana"
    ensures f == Todas <==> ToLower(hash) != "#hoy" && ToLower(hash) != "#semana"
    ensures hash == [] ==> f == Todas
    ensures f != Todas ==> Etiqueta(f) == ToLower(hash)
  {
    var h := if hash == [] then "#todas" else ToLower(hash);
    if h == "#hoy" then Hoy
    else if h == "#semana" then Semana
    else Todas
  }

  /** The filter is blind to letter case: hashes that differ only in the
      case of their letters select the same filter. */
  lemma FiltroIgnoraMayusculas(h1: string, h2: string)
    requires EqualUpToCase(h1, h2)
    ensures FiltroDesdeHash(h1) == FiltroDesdeHash(h2)
  {
    ToLowerEqualIff(h1, h2);
  }

  /** Reading back a stored tag gives the same filter. */
  lemma FiltroDesdeEtiqueta(f: Filtro)
    ensures FiltroDesdeHash(Etiqueta(f)) == f
  {
    var e := Etiqueta(f);
    assert ToLower(e) == e;
  }

  /** Any spelling of a tag up to letter case, such as `#HOY` or `#Semana`,
      selects that filter. */
  lemma FiltroDesdeEtiquetaSinCaso(f: Filtro, h: string)
    requires EqualUpToCase(h, Etiqueta(f))
    ensures FiltroDesdeHash(h) == f
  {
    FiltroDesdeEtiqueta(f);
    FiltroIgnoraMayusculas(h, Etiqueta(f));
  }

  /** The `#semana` test: the note's instant lies between UTC midnight of
      today and seven days after now. */
  predicate EnSemana(n: Nota, c: Clock)
  {
    match InstantOf(n.fecha)
    case Some(t) => Midnight(c) <= t <= Now(c) + 7 * MsPerDay
    case None => false
  }

  /** The `#semana` test as the code states it: the lower bound is the
      current instant `hoy`, not the start of today. */
  predicate EnSemanaAsWritten(n: Nota, c: Clock): (r: bool)
    ensures r ==> FechaValida(n) && EnSemana(n, c)
  {
    match InstantOf(n.fecha)
    case Some(t) => Now(c) <= t <= Now(c) + 7 * MsPerDay
    case None => false
  }

  /** `#semana` keeps the notes dated today through seven days later. */
  lemma EnSemanaDias(n: Nota, c: Clock)
    ensures EnSemana(n, c) <==>
              (ParseIso(n.fecha).Some?
               && DayNumber(c.today) <= DayNumber(ParseIso(n.fecha).value) <= DayNumber(c.today) + 7)
  {
  }

  /** The code's `#semana` test drops today's notes whenever the clock is
      past midnight: it keeps the days strictly after today, up to seven
      days later. */
  lemma EnSemanaAsWrittenDias(n: Nota, c: Clock)
    requires c.msOfDay > 0
    ensures EnSemanaAsWritten(n, c) <==>
              (ParseIso(n.fecha).Some?
               && DayNumber(c.today) < DayNumber(ParseIso(n.fecha).value) <= DayNumber(c.today) + 7)
  {
  }

  /** `filtrarNotas` with the `#semana` window starting at midnight. */
  function FiltrarNotas(notas: seq<Nota>, filtro: Filtro, c: Clock): (r: seq<Nota>)
    ensures IsSubsequence(r, notas)
    ensures filtro == Todas ==> r == notas
    ensures filtro == Hoy ==>
      forall n :: multiset(r)[n] == if n.fecha == FormatIso(c.today) then multiset(notas)[n] else 0
    ensures filtro == Semana ==>
      forall n :: multiset(r)[n] == if EnSemana(n, c) then multiset(notas)[n] else 0
  {
    match filtro
    case Hoy =>
      var ymd := FormatIso(c.today);
      var p := (n: Nota) => n.fecha == ymd;
      FilterIsSubsequence(notas, p);
      FilterCount(notas, p);
      Filter(notas, p)
    case Semana =>
      var p := (n: Nota) => EnSemana(n, c);
      FilterIsSubsequence(notas, p);
      FilterCount(notas, p);
      Filter(notas, p)
    case Todas => IsSubsequenceOfSelf(notas); notas
  }

  /** `filtrarNotas` under `#semana` as written. */
  function FiltrarSemanaAsWritten(notas: seq<Nota>, c: Clock): (r: seq<Nota>)
    ensures IsSubsequence(r, notas)
    ensures forall n :: multiset(r)[n] == if EnSemanaAsWritten(n, c) then multiset(notas)[n] else 0
  {
    var p := (n: Nota) => EnSemanaAsWritten(n, c);
    FilterIsSubsequence(notas, p);
    FilterCount(notas, p);
    Filter(notas, p)
  }

  /** `filtrarNotas` as the code states it: the `#hoy` and `#todas`
      branches of `FiltrarNotas` and the now-based `#semana` test. */
  function FiltrarNotasAsWritten(notas: seq<Nota>, filtro: Filtro, c: Clock): (r: seq<Nota>)
    ensures IsSubsequence(r, notas)
    ensures filtro == Todas ==> r == notas
    ensures filtro == Hoy ==>
      forall n :: multiset(r)[n] == if n.fecha == FormatIso(c.today) then multiset(notas)[n] else 0
    ensures filtro == Semana ==>
      forall n :: multiset(r)[n] == if EnSemanaAsWritten(n, c) then multiset(notas)[n] else 0
  {
    if filtro == Semana then FiltrarSemanaAsWritten(notas, c) else FiltrarNotas(notas, filtro, c)
  }

  /** The code's `#semana` view is part of the intended one, and the two
      hold the same notes when the clock reads exactly midnight. */
  lemma SemanaAsWrittenDentroDeCorregida(notas: seq<Nota>, c: Clock)
    ensures multiset(FiltrarSemanaAsWritten(notas, c)) <= multiset(FiltrarNotas(notas, Semana, c))
    ensures c.msOfDay == 0 ==> multiset(FiltrarSemanaAsWritten(notas, c)) == multiset(FiltrarNotas(notas, Semana, c))
  {
    var a, b := FiltrarSemanaAsWritten(notas, c), FiltrarNotas(notas, Semana, c);
    forall n
      ensures multiset(a)[n] <= multiset(b)[n]
      ensures c.msOfDay == 0 ==> multiset(a)[n] == multiset(b)[n]
    {
      assert EnSemanaAsWritten(n, c) ==> EnSemana(n, c);
    }
    if c.msOfDay == 0 {
      assert multiset(a) == multiset(b);
    }
  }

  /** Every note shown under `#hoy` is shown under `#semana` too. */
  lemma HoyDentroDeSemana(notas: seq<Nota>, c: Clock, n: Nota)
    requires n in FiltrarNotas(notas, Hoy, c)
    ensures n in FiltrarNotas(notas, Semana, c)
  {
    var hoy := FiltrarNotas(notas, Hoy, c);
    assert multiset(hoy)[n] > 0;
    ParseFormatIso(c.today);
    assert EnSemana(n, c);
    assert multiset(FiltrarNotas(notas, Semana, c))[n] > 0;
  }

  /** As written, a note dated today is shown under `#hoy` but not under
      `#semana` once the clock is past midnight. */
  lemma SemanaAsWrittenPierdeHoy(notas: seq<Nota>, c: Clock, n: Nota)
    requires n in notas && n.fecha == FormatIso(c.today) && c.msOfDay > 0
    ensures n in FiltrarNotas(notas, Hoy, c)
    ensures n !in FiltrarSemanaAsWritten(notas, c)
  {
    assert multiset(notas)[n] > 0;
    assert multiset(FiltrarNotas(notas, Hoy, c))[n] > 0;
    ParseFormatIso(c.today);
    assert !EnSemanaAsWritten(n, c);
    assert multiset(FiltrarSemanaAsWritten(notas, c))[n] == 0;
  }
}
