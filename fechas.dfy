/**
  Calendar days. A day is its proleptic Gregorian ordinal (Python's
  `date.toordinal()`): day 1 is 0001-01-01, which was a Monday.
 */
module Fechas {

  type Day = int

  /** Python's `date.weekday()`: Monday is 0, Sunday is 6. */
  function Weekday(d: Day): (w: int)
    ensures 0 <= w < 7
  {
    (d + 6) % 7
  }

  /** `today - timedelta(days=today.weekday())`: the Monday of the week holding `d`. */
  function InicioSemana(d: Day): (m: Day)
    ensures m <= d < m + 7
    ensures Weekday(m) == 0
  {
    d - Weekday(d)
  }

  /** Two days have the same Monday exactly when one lies in the week starting at the other's Monday. */
  lemma MismaSemana(d: Day, e: Day)
    ensures InicioSemana(e) == InicioSemana(d) <==> InicioSemana(d) <= e < InicioSemana(d) + 7
  {
    var m := InicioSemana(d);
    if m <= e < m + 7 {
      assert (m + 6) % 7 == 0;
      assert (e + 6) % 7 == e - m;
    }
  }
}
