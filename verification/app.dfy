/**
 * The two filters of app.py: the year slider, applied with `isin` to the
 * slider's (start, end) pair, and the severity multiselect, which changes
 * nothing while empty.
 */
module App {
  import opened Wrappers
  import opened Records
  import opened FilterEngine

  /**
   * `df[df['data_hora'].dt.year.isin(ano)]` as written: `isin` on the pair
   * keeps the rows of the two end years and no year in between.
   */
  function YearFilter(rows: seq<Accident>, lo: int, hi: int): (kept: seq<Accident>)
    ensures forall r :: r in kept <==> r in rows && (YearOf(r.dataHora) == lo || YearOf(r.dataHora) == hi)
    ensures forall r :: multiset(kept)[r] ==
              if YearOf(r.dataHora) == lo || YearOf(r.dataHora) == hi then multiset(rows)[r] else 0
    ensures IsSubsequence(kept, rows)
  {
    if rows == [] then []
    else
      assert rows == [rows[0]] + rows[1..];
      var y := YearOf(rows[0].dataHora);
      if y == lo || y == hi then [rows[0]] + YearFilter(rows[1..], lo, hi)
      else YearFilter(rows[1..], lo, hi)
  }

  /** The evidently intended year filter: every year of the chosen period, ends included. */
  function YearSpanFilter(rows: seq<Accident>, lo: int, hi: int): (kept: seq<Accident>)
    ensures forall r :: r in kept <==> r in rows && lo <= YearOf(r.dataHora) <= hi
    ensures forall r :: multiset(kept)[r] == if lo <= YearOf(r.dataHora) <= hi then multiset(rows)[r] else 0
    ensures IsSubsequence(kept, rows)
  {
    if rows == [] then []
    else
      assert rows == [rows[0]] + rows[1..];
      var y := YearOf(rows[0].dataHora);
      if lo <= y <= hi then [rows[0]] + YearSpanFilter(rows[1..], lo, hi)
      else YearSpanFilter(rows[1..], lo, hi)
  }

  /**
   * The two filters differ exactly on the years strictly inside the period: such
   * a row is dropped as written and kept by the span.
   */
  lemma YearFilterSkipsInnerYears(rows: seq<Accident>, lo: int, hi: int, r: Accident)
    requires r in rows && lo < YearOf(r.dataHora) < hi
    ensures r !in YearFilter(rows, lo, hi) && r in YearSpanFilter(rows, lo, hi)
  {
  }

  /** With no year strictly between the ends, as written and as intended agree. */
  lemma {:induction false} YearFiltersAgree(rows: seq<Accident>, lo: int, hi: int)
    requires lo <= hi <= lo + 1
    ensures YearFilter(rows, lo, hi) == YearSpanFilter(rows, lo, hi)
  {
    if rows != [] {
      YearFiltersAgree(rows[1..], lo, hi);
    }
  }

  /**
   * The slider's default period (2017, 2024) drops an accident of 2020-01-01
   * (day 18262): the as-written filter keeps nothing of a table holding only it.
   */
  lemma DefaultPeriodDrops2020(r: Accident)
    requires r.dataHora == 18262 * MinutesPerDay
    ensures YearOf(r.dataHora) == 2020
    ensures YearFilter([r], 2017, 2024) == [] && YearSpanFilter([r], 2017, 2024) == [r]
  {
    assert DayOf(r.dataHora) == 18262;
    assert YearStart(2020) == 18262 && YearStart(2021) == 18628;
    YearOfInstant(r.dataHora, 2020);
  }

  /** `df[df['gravidade'].isin(option)]` if anything is chosen, else `df` itself. */
  function SeverityFilter(rows: seq<Accident>, option: seq<Field>): seq<Accident>
  {
    if option == [] then rows
    else Where(rows, [Set("gravidade", seq(|option|, i requires 0 <= i < |option| => FieldCell(option[i])))])
  }

  /**
   * An empty selection keeps the table as it is; otherwise the rows kept are
   * exactly those whose severity was chosen (a NaN severity matches a chosen
   * NaN), in their order.
   */
  lemma SeverityFilterCorrect(rows: seq<Accident>, option: seq<Field>)
    ensures option == [] ==> SeverityFilter(rows, option) == rows
    ensures forall r :: r in SeverityFilter(rows, option) <==> r in rows && (option == [] || r.gravidade in option)
    ensures forall r :: multiset(SeverityFilter(rows, option))[r] ==
              if option == [] || r.gravidade in option then multiset(rows)[r] else 0
    ensures IsSubsequence(SeverityFilter(rows, option), rows)
  {
    if option != [] {
      var cells := seq(|option|, i requires 0 <= i < |option| => FieldCell(option[i]));
      forall r | r in rows ensures HoldsAll([Set("gravidade", cells)], r) <==> r.gravidade in option {
        var ps := [Set("gravidade", cells)];
        assert ps[0] == Set("gravidade", cells);
        assert HoldsAll(ps, r) == Holds(Set("gravidade", cells), r);
        assert ColumnValue(r, "gravidade") == Some(FieldCell(r.gravidade));
        if FieldCell(r.gravidade) in cells {
          var i :| 0 <= i < |cells| && cells[i] == FieldCell(r.gravidade);
          FieldCellInjective(option[i], r.gravidade);
        }
        if r.gravidade in option {
          var i :| 0 <= i < |option| && option[i] == r.gravidade;
          assert cells[i] == FieldCell(r.gravidade);
        }
      }
    } else {
      SubsequenceOfItself(rows);
    }
  }

  lemma FieldCellInjective(f: Field, g: Field)
    requires FieldCell(f) == FieldCell(g)
    ensures f == g
  {
  }

  lemma {:induction false} SubsequenceOfItself<T>(s: seq<T>)
    ensures IsSubsequence(s, s)
  {
    if s != [] {
      SubsequenceOfItself(s[1..]);
    }
  }

  /** A subsequence of a subsequence is a subsequence. */
  lemma {:induction false} SubsequenceTransitive<T>(a: seq<T>, b: seq<T>, c: seq<T>)
    requires IsSubsequence(a, b) && IsSubsequence(b, c)
    ensures IsSubsequence(a, c)
    decreases |c|
  {
    if a != [] {
      if IsSubsequence(b, c[1..]) {
        SubsequenceTransitive(a, b, c[1..]);
      } else if a[0] == b[0] && IsSubsequence(a[1..], b[1..]) {
        SubsequenceTransitive(a[1..], b[1..], c[1..]);
      } else {
        SubsequenceTransitive(a, b[1..], c[1..]);
      }
    }
  }

  /**
   * The view the page evidently intends: the chosen span of years (ends included,
   * not `isin`), then the chosen severities.
   */
  function AppView(table: seq<Accident>, lo: int, hi: int, option: seq<Field>): seq<Accident>
  {
    SeverityFilter(YearSpanFilter(table, lo, hi), option)
  }

  /**
   * A row is shown iff it is in the table, falls in the chosen period and has a
   * chosen severity (or none is chosen); the rows shown keep the table's order.
   */
  lemma AppViewCorrect(table: seq<Accident>, lo: int, hi: int, option: seq<Field>)
    ensures forall r :: r in AppView(table, lo, hi, option) <==>
              r in table && lo <= YearOf(r.dataHora) <= hi && (option == [] || r.gravidade in option)
    ensures forall r :: multiset(AppView(table, lo, hi, option))[r] ==
              if lo <= YearOf(r.dataHora) <= hi && (option == [] || r.gravidade in option)
              then multiset(table)[r] else 0
    ensures IsSubsequence(AppView(table, lo, hi, option), table)
  {
    var inPeriod := YearSpanFilter(table, lo, hi);
    SeverityFilterCorrect(inPeriod, option);
    SubsequenceTransitive(AppView(table, lo, hi, option), inPeriod, table);
  }
}
