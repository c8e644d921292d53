/**
 * The filter panel of pages/1_Acidentes.py: the script builds a list of filter
 * entries widget by widget, and after each widget appends its entry and
 * re-applies the whole list to the table it has already narrowed.
 */
module FilterPanel {
  import opened Wrappers
  import opened Records
  import opened FilterEngine

  /** The period entry as written: both picked dates become midnight timestamps. */
  function PeriodEntry(startDay: int, endDay: int): Entry
  {
    (Pair(Stamp(startDay * MinutesPerDay), Stamp(endDay * MinutesPerDay)), "data_hora")
  }

  /** The period entry as intended: the final day counts up to its last minute. */
  function WholeDaysEntry(startDay: int, endDay: int): Entry
  {
    (Pair(Stamp(startDay * MinutesPerDay), Stamp(endDay * MinutesPerDay + MinutesPerDay - 1)), "data_hora")
  }

  /**
   * As written, an accident on the chosen final day after midnight is dropped,
   * although that day lies inside the period the user picked.
   */
  lemma PeriodDropsFinalDay(rows: seq<Accident>, startDay: int, endDay: int, r: Accident)
    requires r in rows && startDay <= endDay
    requires DayOf(r.dataHora) == endDay && r.dataHora % MinutesPerDay != 0
    ensures FilterSpec(rows, [PeriodEntry(startDay, endDay)]).Ok?
    ensures r !in FilterSpec(rows, [PeriodEntry(startDay, endDay)]).value
  {
    DateRangeEntry(rows, PeriodEntry(startDay, endDay).0, startDay * MinutesPerDay, endDay * MinutesPerDay);
    assert r.dataHora == endDay * MinutesPerDay + r.dataHora % MinutesPerDay;
  }

  /** The day of `t` lies in `startDay..endDay` iff `t` lies in the whole-day span. */
  lemma WholeDaysSpan(t: int, startDay: int, endDay: int)
    ensures startDay * MinutesPerDay <= t <= endDay * MinutesPerDay + MinutesPerDay - 1
            <==> startDay <= DayOf(t) <= endDay
  {
    var d := DayOf(t);
    assert d * MinutesPerDay <= t < d * MinutesPerDay + MinutesPerDay;
    if startDay <= d {
      assert startDay * MinutesPerDay <= d * MinutesPerDay;
    } else {
      assert (d + 1) * MinutesPerDay <= startDay * MinutesPerDay;
    }
    if d <= endDay {
      assert d * MinutesPerDay <= endDay * MinutesPerDay;
    } else {
      assert (endDay + 1) * MinutesPerDay <= d * MinutesPerDay;
    }
  }

  /** The intended period entry keeps exactly the accidents whose day lies between the two picked dates. */
  lemma WholeDaysKeepsPeriod(rows: seq<Accident>, startDay: int, endDay: int)
    ensures FilterSpec(rows, [WholeDaysEntry(startDay, endDay)]).Ok?
    ensures forall r :: r in FilterSpec(rows, [WholeDaysEntry(startDay, endDay)]).value <==>
                          r in rows && startDay <= DayOf(r.dataHora) <= endDay
    ensures forall r :: multiset(FilterSpec(rows, [WholeDaysEntry(startDay, endDay)]).value)[r] ==
                          if startDay <= DayOf(r.dataHora) <= endDay then multiset(rows)[r] else 0
    ensures IsSubsequence(FilterSpec(rows, [WholeDaysEntry(startDay, endDay)]).value, rows)
  {
    DateRangeEntry(rows, WholeDaysEntry(startDay, endDay).0,
                   startDay * MinutesPerDay, endDay * MinutesPerDay + MinutesPerDay - 1);
    forall r: Accident {
      WholeDaysSpan(r.dataHora, startDay, endDay);
    }
  }

  /** A multiselect keeps a row when nothing is selected or when the row's value is selected. */
  predicate Selected(selection: seq<Cell>, f: Field)
  {
    selection == [] || FieldCell(f) in selection
  }

  /** The predicate of a multiselect entry on a text column. */
  lemma MultiselectEntry(selection: seq<Cell>, column: string, r: Accident)
    requires column in {"gravidade", "tipo_acidente", "tempo", "logradouro", "numero", "cruzamento"}
    ensures Classify((Items(selection), column)).Ok?
    ensures Holds(Classify((Items(selection), column)).value, r) <==>
              selection == [] || ColumnValue(r, column).value in selection
  {
  }

  /** `filters.append(entry); df = apply_filters(df, filters)`: one widget's step. */
  method Narrow(ghost table: seq<Accident>, df: seq<Accident>, filters: seq<Entry>, entry: Entry)
    returns (narrowed: seq<Accident>, extended: seq<Entry>)
    requires FilterSpec(table, filters) == Ok(df)
    requires FilterSpec(table, filters + [entry]).Ok?
    ensures extended == filters + [entry]
    ensures FilterSpec(table, extended) == Ok(narrowed)
    ensures IsSubsequence(narrowed, df)
  {
    extended := filters + [entry];
    var r := ApplyFilters(df, extended);
    Refilter(table, filters, entry);
    narrowed := r.value;
    FilterIsConjunction(df, extended);
  }

  /**
   * The panel's entries: a period from `start` to `finish` (timestamps) and six
   * multiselects on known columns.
   */
  function PanelEntries(start: int, finish: int, gravidade: seq<Cell>, tipo: seq<Cell>, tempo: seq<Cell>,
                        logradouros: seq<Cell>, numeros: seq<Cell>, cruzamentos: seq<Cell>): seq<Entry>
  {
    [(Pair(Stamp(start), Stamp(finish)), "data_hora"), (Items(gravidade), "gravidade"),
     (Items(tipo), "tipo_acidente"), (Items(tempo), "tempo"), (Items(logradouros), "logradouro"),
     (Items(numeros), "numero"), (Items(cruzamentos), "cruzamento")]
  }

  /** A row selected by every one of the six multiselects that has a selection. */
  predicate Chosen(r: Accident, gravidade: seq<Cell>, tipo: seq<Cell>, tempo: seq<Cell>,
                   logradouros: seq<Cell>, numeros: seq<Cell>, cruzamentos: seq<Cell>)
  {
    Selected(gravidade, r.gravidade) && Selected(tipo, r.tipoAcidente) && Selected(tempo, r.tempo) &&
    Selected(logradouros, r.logradouro) && Selected(numeros, r.numero) && Selected(cruzamentos, r.cruzamento)
  }

  /** A row the panel shows: inside the period and chosen by the multiselects. */
  predicate Shown(r: Accident, start: int, finish: int, gravidade: seq<Cell>, tipo: seq<Cell>, tempo: seq<Cell>,
                  logradouros: seq<Cell>, numeros: seq<Cell>, cruzamentos: seq<Cell>)
  {
    start <= r.dataHora <= finish && Chosen(r, gravidade, tipo, tempo, logradouros, numeros, cruzamentos)
  }

  /**
   * Lines 90-151 of the page: the period as written (both picked dates at
   * midnight), then gravidade, tipo_acidente, tempo, logradouro, numero and
   * cruzamento. The table shown holds every copy of each row the panel shows,
   * in the loaded order, and nothing else.
   */
  method Panel(table: seq<Accident>, startDay: int, endDay: int, gravidade: seq<Cell>, tipo: seq<Cell>,
               tempo: seq<Cell>, logradouros: seq<Cell>, numeros: seq<Cell>, cruzamentos: seq<Cell>)
    returns (df: seq<Accident>, filters: seq<Entry>)
    ensures filters == PanelEntries(startDay * MinutesPerDay, endDay * MinutesPerDay,
                                    gravidade, tipo, tempo, logradouros, numeros, cruzamentos)
    ensures FilterSpec(table, filters) == Ok(df)
    ensures IsSubsequence(df, table)
    ensures forall r :: r in df <==>
              r in table && Shown(r, startDay * MinutesPerDay, endDay * MinutesPerDay,
                                  gravidade, tipo, tempo, logradouros, numeros, cruzamentos)
    ensures forall r :: multiset(df)[r] ==
              if Shown(r, startDay * MinutesPerDay, endDay * MinutesPerDay,
                       gravidade, tipo, tempo, logradouros, numeros, cruzamentos)
              then multiset(table)[r] else 0
  {
    ghost var all := PanelEntries(startDay * MinutesPerDay, endDay * MinutesPerDay,
                                  gravidade, tipo, tempo, logradouros, numeros, cruzamentos);
    ClassifyPanel(startDay * MinutesPerDay, endDay * MinutesPerDay,
                  gravidade, tipo, tempo, logradouros, numeros, cruzamentos);
    filters := [];
    df := table;
    assert FilterSpec(table, filters) == Ok(df);
    assert all[..1] == filters + [PeriodEntry(startDay, endDay)];
    PrefixFilterOk(table, all, 1);
    df, filters := Narrow(table, df, filters, PeriodEntry(startDay, endDay));
    assert all[..2] == filters + [(Items(gravidade), "gravidade")];
    PrefixFilterOk(table, all, 2);
    df, filters := Narrow(table, df, filters, (Items(gravidade), "gravidade"));
    assert all[..3] == filters + [(Items(tipo), "tipo_acidente")];
    PrefixFilterOk(table, all, 3);
    df, filters := Narrow(table, df, filters, (Items(tipo), "tipo_acidente"));
    assert all[..4] == filters + [(Items(tempo), "tempo")];
    PrefixFilterOk(table, all, 4);
    df, filters := Narrow(table, df, filters, (Items(tempo), "tempo"));
    assert all[..5] == filters + [(Items(logradouros), "logradouro")];
    PrefixFilterOk(table, all, 5);
    df, filters := Narrow(table, df, filters, (Items(logradouros), "logradouro"));
    assert all[..6] == filters + [(Items(numeros), "numero")];
    PrefixFilterOk(table, all, 6);
    df, filters := Narrow(table, df, filters, (Items(numeros), "numero"));
    assert all[..7] == filters + [(Items(cruzamentos), "cruzamento")];
    PrefixFilterOk(table, all, 7);
    df, filters := Narrow(table, df, filters, (Items(cruzamentos), "cruzamento"));
    assert filters == all;
    PanelMeaning(table, startDay * MinutesPerDay, endDay * MinutesPerDay,
                 gravidade, tipo, tempo, logradouros, numeros, cruzamentos);
  }

  /** Entries that classify one by one to `ps` have the predicates `ps`. */
  lemma {:induction false} PredicatesOfAll(entries: seq<Entry>, ps: seq<Predicate>)
    requires |ps| == |entries|
    requires forall i :: 0 <= i < |entries| ==> Classify(entries[i]) == Ok(ps[i])
    ensures Predicates(entries) == Ok(ps)
    decreases |entries|
  {
    if entries != [] {
      assert Classify(entries[0]) == Ok(ps[0]);
      PredicatesOfAll(entries[1..], ps[1..]);
      assert ps == [ps[0]] + ps[1..];
    }
  }

  /** No prefix of a list whose predicates exist raises. */
  lemma PrefixesRaiseNothing(entries: seq<Entry>)
    requires Predicates(entries).Ok?
    ensures forall k :: 0 <= k <= |entries| ==> Predicates(entries[..k]).Ok?
    ensures forall rows: seq<Accident>, k :: 0 <= k <= |entries| ==> FilterSpec(rows, entries[..k]).Ok?
  {
    forall k | 0 <= k <= |entries| ensures Predicates(entries[..k]).Ok? {
      PrefixOk(entries, k);
    }
    forall rows: seq<Accident>, k | 0 <= k <= |entries| ensures FilterSpec(rows, entries[..k]).Ok? {
      PrefixOk(entries, k);
      FilterIsConjunction(rows, entries[..k]);
    }
  }

  /** The same for one prefix and one table. */
  lemma PrefixFilterOk(rows: seq<Accident>, entries: seq<Entry>, k: nat)
    requires Predicates(entries).Ok? && k <= |entries|
    ensures FilterSpec(rows, entries[..k]).Ok?
  {
    PrefixOk(entries, k);
    FilterIsConjunction(rows, entries[..k]);
  }

  lemma {:induction false} PrefixOk(entries: seq<Entry>, k: nat)
    requires Predicates(entries).Ok? && k <= |entries|
    ensures Predicates(entries[..k]).Ok?
    decreases k
  {
    if k > 0 {
      assert entries[..k][0] == entries[0];
      assert entries[..k][1..] == entries[1..][..k - 1];
      PrefixOk(entries[1..], k - 1);
    }
  }

  /** The predicate of a multiselect: none when nothing is selected, `isin` otherwise. */
  function MultiselectPredicate(selection: seq<Cell>, column: string): Predicate
  {
    if selection == [] then Empty else Set(column, selection)
  }

  /** The predicates the panel's entries stand for. */
  function PanelPredicates(start: int, finish: int, gravidade: seq<Cell>, tipo: seq<Cell>, tempo: seq<Cell>,
                           logradouros: seq<Cell>, numeros: seq<Cell>, cruzamentos: seq<Cell>): seq<Predicate>
  {
    [DateRange(start, finish),
     MultiselectPredicate(gravidade, "gravidade"), MultiselectPredicate(tipo, "tipo_acidente"),
     MultiselectPredicate(tempo, "tempo"), MultiselectPredicate(logradouros, "logradouro"),
     MultiselectPredicate(numeros, "numero"), MultiselectPredicate(cruzamentos, "cruzamento")]
  }

  lemma ClassifyPanel(start: int, finish: int, gravidade: seq<Cell>, tipo: seq<Cell>, tempo: seq<Cell>,
                      logradouros: seq<Cell>, numeros: seq<Cell>, cruzamentos: seq<Cell>)
    ensures Predicates(PanelEntries(start, finish, gravidade, tipo, tempo, logradouros, numeros, cruzamentos))
            == Ok(PanelPredicates(start, finish, gravidade, tipo, tempo, logradouros, numeros, cruzamentos))
  {
    var entries := PanelEntries(start, finish, gravidade, tipo, tempo, logradouros, numeros, cruzamentos);
    var ps := PanelPredicates(start, finish, gravidade, tipo, tempo, logradouros, numeros, cruzamentos);
    MultiselectClassify(gravidade, "gravidade");
    MultiselectClassify(tipo, "tipo_acidente");
    MultiselectClassify(tempo, "tempo");
    MultiselectClassify(logradouros, "logradouro");
    MultiselectClassify(numeros, "numero");
    MultiselectClassify(cruzamentos, "cruzamento");
    assert Classify(entries[0]) == Ok(ps[0]);
    PredicatesOfAll(entries, ps);
  }

  /** A multiselect's entry on a column of the table never raises and stands for its predicate. */
  lemma MultiselectClassify(selection: seq<Cell>, column: string)
    requires column != "data_hora" && KnownColumn(column)
    ensures Classify((Items(selection), column)) == Ok(MultiselectPredicate(selection, column))
  {
  }

  lemma PanelRow(r: Accident, start: int, finish: int, gravidade: seq<Cell>, tipo: seq<Cell>, tempo: seq<Cell>,
                 logradouros: seq<Cell>, numeros: seq<Cell>, cruzamentos: seq<Cell>)
    ensures HoldsAll(PanelPredicates(start, finish, gravidade, tipo, tempo, logradouros, numeros, cruzamentos), r)
            <==> Shown(r, start, finish, gravidade, tipo, tempo, logradouros, numeros, cruzamentos)
  {
    var ps := PanelPredicates(start, finish, gravidade, tipo, tempo, logradouros, numeros, cruzamentos);
    assert HoldsAll(ps, r) <==> Holds(ps[0], r) && Holds(ps[1], r) && Holds(ps[2], r) && Holds(ps[3], r)
                                && Holds(ps[4], r) && Holds(ps[5], r) && Holds(ps[6], r);
  }

  /** The panel's seven entries raise nothing and keep every copy of the rows shown, in order, and nothing else. */
  lemma PanelMeaning(table: seq<Accident>, start: int, finish: int, gravidade: seq<Cell>, tipo: seq<Cell>,
                     tempo: seq<Cell>, logradouros: seq<Cell>, numeros: seq<Cell>, cruzamentos: seq<Cell>)
    ensures var entries := PanelEntries(start, finish, gravidade, tipo, tempo, logradouros, numeros, cruzamentos);
            FilterSpec(table, entries).Ok? &&
            IsSubsequence(FilterSpec(table, entries).value, table) &&
            (forall r :: r in FilterSpec(table, entries).value <==>
               r in table && Shown(r, start, finish, gravidade, tipo, tempo, logradouros, numeros, cruzamentos)) &&
            forall r :: multiset(FilterSpec(table, entries).value)[r] ==
              if Shown(r, start, finish, gravidade, tipo, tempo, logradouros, numeros, cruzamentos)
              then multiset(table)[r] else 0
  {
    var entries := PanelEntries(start, finish, gravidade, tipo, tempo, logradouros, numeros, cruzamentos);
    ClassifyPanel(start, finish, gravidade, tipo, tempo, logradouros, numeros, cruzamentos);
    FilterIsConjunction(table, entries);
    forall r: Accident {
      PanelRow(r, start, finish, gravidade, tipo, tempo, logradouros, numeros, cruzamentos);
    }
  }

  /**
   * The panel with the intended period entry: the rows shown are those dated
   * between the two picked dates, the final day included.
   */
  lemma WholeDaysPanel(table: seq<Accident>, startDay: int, endDay: int, gravidade: seq<Cell>, tipo: seq<Cell>,
                       tempo: seq<Cell>, logradouros: seq<Cell>, numeros: seq<Cell>, cruzamentos: seq<Cell>)
    ensures var entries := PanelEntries(startDay * MinutesPerDay, endDay * MinutesPerDay + MinutesPerDay - 1,
                                        gravidade, tipo, tempo, logradouros, numeros, cruzamentos);
            entries[0] == WholeDaysEntry(startDay, endDay) &&
            FilterSpec(table, entries).Ok? &&
            IsSubsequence(FilterSpec(table, entries).value, table) &&
            forall r :: multiset(FilterSpec(table, entries).value)[r] ==
              if startDay <= DayOf(r.dataHora) <= endDay &&
                 Chosen(r, gravidade, tipo, tempo, logradouros, numeros, cruzamentos)
              then multiset(table)[r] else 0
  {
    PanelMeaning(table, startDay * MinutesPerDay, endDay * MinutesPerDay + MinutesPerDay - 1,
                 gravidade, tipo, tempo, logradouros, numeros, cruzamentos);
    forall r: Accident {
      WholeDaysSpan(r.dataHora, startDay, endDay);
    }
  }
}
