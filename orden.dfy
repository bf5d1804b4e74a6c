/** `ordenarNotas`: a sorted copy of the notes, highest priority first, then
    the earliest date, then the text. */
module Orden {
  import opened Wrappers
  import opened Text
  import opened Dates
  import opened Notas
  import opened Sort

  /** The comparator handed to `sort`: the priority difference (higher
      first), else the difference of the two dates' instants, else the
      comparison of the texts. A zero or `NaN` (an invalid date) difference
      falls through to the next key. Negative means `a` goes first. */
  function Comparar(a: Nota, b: Nota): (r: int)
    ensures a.prioridad > b.prioridad ==> r < 0
    ensures a.prioridad < b.prioridad ==> r > 0
    ensures a.prioridad == b.prioridad && FechaValida(a) && FechaValida(b)
            && InstantOf(a.fecha).value != InstantOf(b.fecha).value
            ==> (r < 0 <==> InstantOf(a.fecha).value < InstantOf(b.fecha).value)
    ensures a.prioridad == b.prioridad && !(FechaValida(a) && FechaValida(b)) ==> r == LexCompare(a.texto, b.texto)
    ensures r == 0 <==> a.prioridad == b.prioridad && a.texto == b.texto
                        && (FechaValida(a) && FechaValida(b) ==> InstantOf(a.fecha) == InstantOf(b.fecha))
  {
    if b.prioridad - a.prioridad != 0 then b.prioridad - a.prioridad
    else match (InstantOf(a.fecha), InstantOf(b.fecha))
      case (Some(x), Some(y)) => if x - y != 0 then x - y else LexCompare(a.texto, b.texto)
      case _ => LexCompare(a.texto, b.texto)
  }

  predicate ConFechas(s: seq<Nota>)
  {
    forall n :: n in s ==> FechaValida(n)
  }

  lemma CompararAntisimetrico(a: Nota, b: Nota)
    ensures Comparar(b, a) == -Comparar(a, b)
  {
    LexCompareAntisymmetric(a.texto, b.texto);
  }

  /** With valid dates the comparator is a total preorder. */
  lemma CompararTransitivo(a: Nota, b: Nota, c: Nota)
    requires FechaValida(a) && FechaValida(b) && FechaValida(c)
    requires Comparar(a, b) <= 0 && Comparar(b, c) <= 0
    ensures Comparar(a, c) <= 0
  {
    var x, y, z := InstantOf(a.fecha).value, InstantOf(b.fecha).value, InstantOf(c.fecha).value;
    assert Comparar(a, b) == if a.prioridad != b.prioridad then b.prioridad - a.prioridad
                             else if x != y then x - y else LexCompare(a.texto, b.texto);
    assert Comparar(b, c) == if b.prioridad != c.prioridad then c.prioridad - b.prioridad
                             else if y != z then y - z else LexCompare(b.texto, c.texto);
    assert Comparar(a, c) == if a.prioridad != c.prioridad then c.prioridad - a.prioridad
                             else if x != z then x - z else LexCompare(a.texto, c.texto);
    if a.prioridad == b.prioridad == c.prioridad && x == y == z {
      LexCompareTransitive(a.texto, b.texto, c.texto);
    }
  }

  /** The comparator is a total preorder on notes with valid dates. */
  lemma CompararPreorden()
    ensures Antisymmetric(Comparar)
    ensures TransitiveOn(Comparar, FechaValida)
  {
    forall a, b
      ensures Comparar(b, a) == -Comparar(a, b)
    {
      CompararAntisimetrico(a, b);
    }
    forall a, b, c | FechaValida(a) && FechaValida(b) && FechaValida(c) && Comparar(a, b) <= 0 && Comparar(b, c) <= 0
      ensures Comparar(a, c) <= 0
    {
      CompararTransitivo(a, b, c);
    }
  }

  /** `[...notas].sort(Comparar)`: a new sequence with the same notes, the
      argument left as it was. */
  function OrdenarNotas(notas: seq<Nota>): (r: seq<Nota>)
    ensures |r| == |notas|
    ensures multiset(r) == multiset(notas)
  {
    InsertionSort(notas, Comparar)
  }

  /** With valid dates the result is sorted by the comparator. */
  lemma OrdenarNotasOrdenada(notas: seq<Nota>)
    requires ConFechas(notas)
    ensures Sorted(OrdenarNotas(notas), Comparar)
  {
    CompararPreorden();
    InsertionSortSorted(notas, Comparar, FechaValida);
  }

  /** `a` may precede `b` by the three keys: a higher priority, or the same
      priority and an earlier day, or the same priority and day and a text
      that is not after `b`'s. */
  predicate PorClaves(a: Nota, b: Nota)
  {
    || a.prioridad > b.prioridad
    || (a.prioridad == b.prioridad && ParseIso(a.fecha).Some? && ParseIso(b.fecha).Some?
        && Before(ParseIso(a.fecha).value, ParseIso(b.fecha).value))
    || (a.prioridad == b.prioridad && a.fecha == b.fecha && LexCompare(a.texto, b.texto) <= 0)
  }

  /** For notes with valid dates the comparator orders by the three keys. */
  lemma CompararClaves(a: Nota, b: Nota)
    requires FechaValida(a) && FechaValida(b)
    requires Comparar(a, b) <= 0
    ensures PorClaves(a, b)
  {
    var da, db := ParseIso(a.fecha).value, ParseIso(b.fecha).value;
    if a.prioridad == b.prioridad {
      if DayNumber(da) == DayNumber(db) {
        DayNumberInjective(da, db);
        FormatParseIso(a.fecha);
        FormatParseIso(b.fecha);
      } else if Before(db, da) {
        DayNumberIncreasing(db, da);
      } else {
        assert da != db;
      }
    }
  }

  /** `ordenarNotas` returns a permutation of its argument ordered by
      priority descending, then date ascending, then text ascending. */
  lemma OrdenarNotasOrdena(notas: seq<Nota>)
    requires ConFechas(notas)
    ensures multiset(OrdenarNotas(notas)) == multiset(notas)
    ensures var r := OrdenarNotas(notas);
            forall i, j :: 0 <= i < j < |r| ==> PorClaves(r[i], r[j])
  {
    var r := OrdenarNotas(notas);
    OrdenarNotasOrdenada(notas);
    forall i, j | 0 <= i < j < |r|
      ensures PorClaves(r[i], r[j])
    {
      assert r[i] in multiset(notas) && r[j] in multiset(notas);
      assert FechaValida(r[i]) && FechaValida(r[j]);
      assert Comparar(r[i], r[j]) <= 0;
      CompararClaves(r[i], r[j]);
    }
  }

  /** Sorting an already sorted sequence of notes keeps its order exactly. */
  lemma OrdenarNotasOrdenadaFija(notas: seq<Nota>)
    requires Sorted(notas, Comparar)
    ensures OrdenarNotas(notas) == notas
  {
    CompararPreorden();
    InsertionSortOfSorted(notas, Comparar);
  }

  /** Re-sorting the sorted view changes nothing. */
  lemma OrdenarNotasIdempotente(notas: seq<Nota>)
    requires ConFechas(notas)
    ensures OrdenarNotas(OrdenarNotas(notas)) == OrdenarNotas(notas)
  {
    OrdenarNotasOrdenada(notas);
    OrdenarNotasOrdenadaFija(OrdenarNotas(notas));
  }
}
