/**
 * The analysis date of a report, `D-MM-YYYY`, assembled from the three
 * groups of the "creado el <day> de <month> de <year>" match and the table
 * of Spanish month names.
 */
module Dates {
  import opened Wrappers
  import opened Text
  import Decimal

  /** The groups of the date match: one or two digits, a month name, four digits. */
  datatype DateMatch = DateMatch(day: string, month: string, year: string)

  /** The `meses` table. */
  const MESES: map<string, string> := map[
    "Enero" := "01", "Febrero" := "02", "Marzo" := "03", "Abril" := "04",
    "Mayo" := "05", "Junio" := "06", "Julio" := "07", "Agosto" := "08",
    "Septiembre" := "09", "Octubre" := "10", "Noviembre" := "11", "Diciembre" := "12"]

  /** The same table read backwards. */
  const NOMBRES: map<string, string> := map[
    "01" := "Enero", "02" := "Febrero", "03" := "Marzo", "04" := "Abril",
    "05" := "Mayo", "06" := "Junio", "07" := "Julio", "08" := "Agosto",
    "09" := "Septiembre", "10" := "Octubre", "11" := "Noviembre", "12" := "Diciembre"]

  /**
   * `fecha.group(1) + '-' + meses[fecha.group(2)] + '-' + fecha.group(3)`.
   * `None` stands for the exception path that leaves `'na'` and an
   * `Analysis_date` error: no match, or a month missing from the table.
   */
  function AnalysisDate(m: Option<DateMatch>): (r: Option<string>)
    ensures r.Some? <==> m.Some? && m.value.month in MESES
    ensures r.Some? ==>
      var d, y := m.value.day, m.value.year;
      && |r.value| == |d| + 4 + |y|
      && r.value[..|d|] == d && r.value[|d|] == '-' && r.value[|d| + 3] == '-'
      && r.value[|d| + 4..] == y
  {
    match m
    case None => None
    case Some(DateMatch(day, month, year)) =>
      if month in MESES then Some(day + "-" + MESES[month] + "-" + year) else None
  }

  /** Every month number is two digits and names its month back. */
  lemma MonthTableInverse(name: string)
    requires name in MESES
    ensures |MESES[name]| == 2 && Decimal.AllDigits(MESES[name])
    ensures MESES[name] in NOMBRES && NOMBRES[MESES[name]] == name
  {
  }

  /** Splits a `D-MM-YYYY` string back into its groups. */
  function DecodeDate(s: string): Option<DateMatch>
  {
    var p := Find(s, "-");
    if p >= 0 && p + 4 <= |s| && s[p + 3] == '-' && s[p + 1..p + 3] in NOMBRES then
      Some(DateMatch(s[..p], NOMBRES[s[p + 1..p + 3]], s[p + 4..]))
    else None
  }

  /**
   * A date is written for a known month only; the day is not zero-padded,
   * and decoding what was written gives back the day, month and year.
   */
  lemma AnalysisDateRoundTrip(m: DateMatch)
    requires Decimal.AllDigits(m.day)
    ensures AnalysisDate(Some(m)).Some? <==> m.month in MESES
    ensures m.month in MESES ==>
      var s := AnalysisDate(Some(m)).value;
      |s| == |m.day| + 4 + |m.year| && DecodeDate(s) == Some(m)
  {
    if m.month in MESES {
      MonthTableInverse(m.month);
      var s := AnalysisDate(Some(m)).value;
      var p := |m.day|;
      OccursAtChar(s, '-', p);
      forall i | 0 <= i < p
        ensures !OccursAt(s, "-", i)
      {
        OccursAtChar(s, '-', i);
      }
      assert Find(s, "-") == p;
      assert s[..p] == m.day;
      assert s[p + 1..p + 3] == MESES[m.month];
      assert s[p + 4..] == m.year;
    }
  }
}
