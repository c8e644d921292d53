/**
 * `apply_filters` of pages/1_Acidentes.py and the filter panel that calls it.
 *
 * A filter entry is a pair (value, column). The value is what the widget hands
 * over: None, a scalar, a list (a multiselect) or a tuple (the date pair).
 * `Classify` reproduces the branch order of `apply_filters` and turns an entry
 * into a tagged predicate; `Where` is the boolean-mask selection `df[mask]`.
 */
module FilterEngine {
  import opened Wrappers
  import opened Records

  /** A cell value as pandas compares it; `Missing` is NaN. */
  datatype Cell = Missing | Text(s: string) | Int(i: int) | Stamp(minutes: int)

  /** The Python value of a filter entry. */
  datatype FilterValue =
    | NoneValue
    | Atom(cell: Cell)
    | Items(cells: seq<Cell>)
    | Pair(first: Cell, second: Cell)

  type Entry = (FilterValue, string)

  /** The tagged predicate an entry stands for. */
  datatype Predicate =
    | Empty
    | Scalar(column: string, value: Cell)
    | Set(column: string, values: seq<Cell>)
    | DateRange(start: int, finish: int)

  /** The exception an entry raises when it is applied. */
  datatype FilterError =
    | KeyError(column: string)   // `df[column]` on a column the frame does not have
    | BadRange                   // `start, finish = filter_value` cannot unpack two timestamps
    | BadScalar                  // a tuple compared with `==` against a whole column

  /** Python truthiness of a filter value: None, "", 0 and [] are false; NaN and tuples are true. */
  predicate Falsy(v: FilterValue)
  {
    v == NoneValue || v == Atom(Text("")) || v == Atom(Int(0)) || v == Items([])
  }

  function FieldCell(f: Field): Cell
  {
    match f
    case None => Missing
    case Some(s) => Text(s)
  }

  /** `row[column]` for the columns the filter engine can be pointed at. */
  function ColumnValue(r: Accident, column: string): Option<Cell>
  {
    if column == "data_hora" then Some(Stamp(r.dataHora))
    else if column == "dia_semana" then Some(Int(r.diaSemana))
    else if column == "gravidade" then Some(FieldCell(r.gravidade))
    else if column == "logradouro" then Some(FieldCell(r.logradouro))
    else if column == "numero" then Some(FieldCell(r.numero))
    else if column == "cruzamento" then Some(FieldCell(r.cruzamento))
    else if column == "tipo_acidente" then Some(FieldCell(r.tipoAcidente))
    else if column == "tempo" then Some(FieldCell(r.tempo))
    else if column == "lat" then Some(Text(r.lat))
    else if column == "lon" then Some(Text(r.lon))
    else None
  }

  predicate KnownColumn(column: string)
  {
    column in {"data_hora", "dia_semana", "lat", "lon", "gravidade", "logradouro", "numero",
               "cruzamento", "tipo_acidente", "tempo"}
  }

  lemma KnownColumnHasValue(r: Accident, column: string)
    ensures ColumnValue(r, column).Some? <==> KnownColumn(column)
  {
  }

  /** `start, finish = filter_value`: a tuple or a two-element list of timestamps. */
  function UnpackRange(v: FilterValue): Result<(int, int), FilterError>
  {
    match v
    case Pair(Stamp(s), Stamp(f)) => Ok((s, f))
    case Items(cs) =>
      if |cs| == 2 && cs[0].Stamp? && cs[1].Stamp? then Ok((cs[0].minutes, cs[1].minutes))
      else Err(BadRange)
    case _ => Err(BadRange)
  }

  /** The dispatch of one loop iteration of `apply_filters`, in the order the code tests it. */
  function Classify(e: Entry): Result<Predicate, FilterError>
  {
    var (value, column) := e;
    if Falsy(value) then Ok(Empty)
    else if column == "data_hora" then
      match UnpackRange(value)
      case Ok((s, f)) => Ok(DateRange(s, f))
      case Err(err) => Err(err)
    else if !KnownColumn(column) then Err(KeyError(column))
    else
      match value
      case Items(cs) => Ok(Set(column, cs))
      case Atom(c) => Ok(Scalar(column, c))
      case _ => Err(BadScalar)
  }

  /** Whether a row is kept by a predicate: `==` never matches NaN, `isin` does. */
  predicate Holds(p: Predicate, r: Accident)
  {
    match p
    case Empty => true
    case Scalar(column, v) =>
      var c := ColumnValue(r, column); c.Some? && c.value != Missing && c.value == v
    case Set(column, vs) =>
      var c := ColumnValue(r, column); c.Some? && c.value in vs
    case DateRange(s, f) => s <= r.dataHora <= f
  }

  predicate HoldsAll(ps: seq<Predicate>, r: Accident)
  {
    forall i :: 0 <= i < |ps| ==> Holds(ps[i], r)
  }

  /** `a` is `b` with some elements left out and the rest in their order. */
  predicate IsSubsequence<T(==)>(a: seq<T>, b: seq<T>)
    decreases |b|
  {
    a == [] || (b != [] && ((a[0] == b[0] && IsSubsequence(a[1..], b[1..])) || IsSubsequence(a, b[1..])))
  }

  /**
   * `df[mask]`: the rows that satisfy every predicate of `ps`, in their order.
   * Every copy of a kept row stays, every copy of another row goes.
   */
  function Where(rows: seq<Accident>, ps: seq<Predicate>): (kept: seq<Accident>)
    ensures |kept| <= |rows|
    ensures forall r :: r in kept <==> r in rows && HoldsAll(ps, r)
    ensures forall r :: multiset(kept)[r] == if HoldsAll(ps, r) then multiset(rows)[r] else 0
    ensures IsSubsequence(kept, rows)
  {
    if rows == [] then []
    else
      assert rows == [rows[0]] + rows[1..];
      if HoldsAll(ps, rows[0]) then [rows[0]] + Where(rows[1..], ps)
      else Where(rows[1..], ps)
  }

  /** `apply_filters` as a specification: each entry in turn narrows the table, or raises. */
  function FilterSpec(rows: seq<Accident>, entries: seq<Entry>): Result<seq<Accident>, FilterError>
    decreases |entries|
  {
    if entries == [] then Ok(rows)
    else
      match Classify(entries[0])
      case Err(e) => Err(e)
      case Ok(p) => FilterSpec(Where(rows, [p]), entries[1..])
  }

  /** The predicates of all entries, or the first exception one of them raises. */
  function Predicates(entries: seq<Entry>): Result<seq<Predicate>, FilterError>
    decreases |entries|
  {
    if entries == [] then Ok([])
    else
      match Classify(entries[0])
      case Err(e) => Err(e)
      case Ok(p) =>
        match Predicates(entries[1..])
        case Err(e) => Err(e)
        case Ok(ps) => Ok([p] + ps)
  }

  /** `apply_filters(df, filters)`: the loop that rebinds `df` entry by entry. */
  method ApplyFilters(df: seq<Accident>, filters: seq<Entry>) returns (r: Result<seq<Accident>, FilterError>)
    ensures r == FilterSpec(df, filters)
  {
    var cur := df;
    var i := 0;
    while i < |filters|
      invariant 0 <= i <= |filters|
      invariant FilterSpec(df, filters) == FilterSpec(cur, filters[i..])
    {
      assert filters[i..][0] == filters[i] && filters[i..][1..] == filters[i + 1..];
      var step := ApplyEntry(cur, filters[i]);
      if step.Err? {
        return Err(step.error);
      }
      cur := step.value;
      i := i + 1;
    }
    r := Ok(cur);
  }

  /**
   * One iteration of the loop: a falsy value leaves `df` as it is, `data_hora`
   * takes a range, a list `isin`, anything else `==`; a failing step raises.
   */
  method ApplyEntry(cur: seq<Accident>, entry: Entry) returns (r: Result<seq<Accident>, FilterError>)
    ensures Classify(entry).Err? ==> r == Err(Classify(entry).error)
    ensures Classify(entry).Ok? ==> r == Ok(Where(cur, [Classify(entry).value]))
  {
    var (value, column) := entry;
    if !Falsy(value) {
      if column == "data_hora" {
        var range := UnpackRange(value);
        if range.Err? {
          return Err(range.error);
        }
        var (start, finish) := range.value;
        r := Ok(Where(cur, [DateRange(start, finish)]));
      } else if !KnownColumn(column) {
        r := Err(KeyError(column));
      } else if value.Items? {
        r := Ok(Where(cur, [Set(column, value.cells)]));
      } else if value.Atom? {
        r := Ok(Where(cur, [Scalar(column, value.cell)]));
      } else {
        r := Err(BadScalar);
      }
    } else {
      WhereTrue(cur, [Empty]);
      r := Ok(cur);
    }
  }

  // ---------------------------------------------------------------------------
  // Properties of the selection

  /** Predicates that every row satisfies select the whole table. */
  lemma {:induction false} WhereTrue(rows: seq<Accident>, ps: seq<Predicate>)
    requires forall r :: HoldsAll(ps, r)
    ensures Where(rows, ps) == rows
  {
    if rows != [] {
      WhereTrue(rows[1..], ps);
      assert rows == [rows[0]] + rows[1..];
    }
  }

  /** Two lists of predicates that agree on every row select the same rows. */
  lemma {:induction false} WhereCongruent(rows: seq<Accident>, ps: seq<Predicate>, qs: seq<Predicate>)
    requires forall r :: HoldsAll(ps, r) == HoldsAll(qs, r)
    ensures Where(rows, ps) == Where(rows, qs)
  {
    if rows != [] {
      WhereCongruent(rows[1..], ps, qs);
    }
  }

  /** A conjunction over a concatenation is the conjunction of the two parts. */
  lemma HoldsAllAppend(ps: seq<Predicate>, qs: seq<Predicate>, r: Accident)
    ensures HoldsAll(ps + qs, r) <==> HoldsAll(ps, r) && HoldsAll(qs, r)
  {
    if HoldsAll(ps + qs, r) {
      forall i | 0 <= i < |ps| ensures Holds(ps[i], r) {
        assert (ps + qs)[i] == ps[i];
      }
      forall i | 0 <= i < |qs| ensures Holds(qs[i], r) {
        assert (ps + qs)[|ps| + i] == qs[i];
      }
    }
  }

  /** Selecting twice is selecting once with both lists of predicates. */
  lemma {:induction false} WhereWhere(rows: seq<Accident>, ps: seq<Predicate>, qs: seq<Predicate>)
    ensures Where(Where(rows, ps), qs) == Where(rows, ps + qs)
  {
    if rows != [] {
      WhereWhere(rows[1..], ps, qs);
      HoldsAllAppend(ps, qs, rows[0]);
      if HoldsAll(ps, rows[0]) {
        assert Where(rows, ps) == [rows[0]] + Where(rows[1..], ps);
        assert Where(rows, ps)[1..] == Where(rows[1..], ps);
      }
    }
  }

  /** Repeating predicates that are already there selects nothing less. */
  lemma WhereAbsorbs(rows: seq<Accident>, ps: seq<Predicate>, q: seq<Predicate>)
    ensures Where(rows, ps + (ps + q)) == Where(rows, ps + q)
  {
    forall r ensures HoldsAll(ps + (ps + q), r) == HoldsAll(ps + q, r) {
      HoldsAllAppend(ps, ps + q, r);
      HoldsAllAppend(ps, q, r);
    }
    WhereCongruent(rows, ps + (ps + q), ps + q);
  }

  // ---------------------------------------------------------------------------
  // Properties of apply_filters

  /**
   * A row survives `apply_filters` iff it satisfies the predicate of every entry
   * (the empty predicate of a falsy entry holds of every row): the entries are
   * combined by conjunction, and the first entry that raises decides the error.
   */
  lemma {:induction false} FilterIsConjunction(rows: seq<Accident>, entries: seq<Entry>)
    ensures Predicates(entries).Err? ==> FilterSpec(rows, entries) == Err(Predicates(entries).error)
    ensures Predicates(entries).Ok? ==> FilterSpec(rows, entries) == Ok(Where(rows, Predicates(entries).value))
    decreases |entries|
  {
    if entries == [] {
      WhereTrue(rows, []);
    } else {
      match Classify(entries[0])
      case Err(e) =>
      case Ok(p) =>
        FilterIsConjunction(Where(rows, [p]), entries[1..]);
        if Predicates(entries[1..]).Ok? {
          WhereWhere(rows, [p], Predicates(entries[1..]).value);
        }
    }
  }

  lemma {:induction false} PredicatesAppend(entries: seq<Entry>, e: Entry)
    ensures Predicates(entries).Err? ==> Predicates(entries + [e]) == Predicates(entries)
    ensures Predicates(entries).Ok? && Classify(e).Err? ==> Predicates(entries + [e]) == Err(Classify(e).error)
    ensures Predicates(entries).Ok? && Classify(e).Ok? ==>
              Predicates(entries + [e]) == Ok(Predicates(entries).value + [Classify(e).value])
    decreases |entries|
  {
    if entries == [] {
      assert [e][1..] == [] && entries + [e] == [e];
      if Classify(e).Ok? {
        assert [Classify(e).value] + [] == [] + [Classify(e).value];
      }
    } else {
      assert (entries + [e])[0] == entries[0];
      assert (entries + [e])[1..] == entries[1..] + [e];
      PredicatesAppend(entries[1..], e);
      if Classify(entries[0]).Ok? && Predicates(entries[1..]).Ok? && Classify(e).Ok? {
        var p, ps, c := Classify(entries[0]).value, Predicates(entries[1..]).value, Classify(e).value;
        assert [p] + (ps + [c]) == ([p] + ps) + [c];
      }
    }
  }

  /** A list of entries whose values are all falsy returns the table unchanged. */
  lemma {:induction false} AllFalsyIsIdentity(rows: seq<Accident>, entries: seq<Entry>)
    requires forall i :: 0 <= i < |entries| ==> Falsy(entries[i].0)
    ensures FilterSpec(rows, entries) == Ok(rows)
    decreases |entries|
  {
    if entries != [] {
      WhereTrue(rows, [Empty]);
      AllFalsyIsIdentity(rows, entries[1..]);
    }
  }

  /** Re-applying the same filter list to its own result changes nothing. */
  lemma FilterIdempotent(rows: seq<Accident>, entries: seq<Entry>)
    requires FilterSpec(rows, entries).Ok?
    ensures FilterSpec(FilterSpec(rows, entries).value, entries) == FilterSpec(rows, entries)
  {
    FilterIsConjunction(rows, entries);
    var ps := Predicates(entries).value;
    FilterIsConjunction(Where(rows, ps), entries);
    WhereWhere(rows, ps, ps);
    WhereAbsorbs(rows, ps, []);
    assert ps + [] == ps;
  }

  /**
   * The page's pattern: append one entry to the list and re-apply the whole list
   * to the already filtered table. The result is that of applying the longer list
   * to the original table once, and it is never longer than the table it narrows.
   */
  lemma Refilter(rows: seq<Accident>, entries: seq<Entry>, e: Entry)
    requires FilterSpec(rows, entries).Ok?
    ensures FilterSpec(FilterSpec(rows, entries).value, entries + [e]) == FilterSpec(rows, entries + [e])
    ensures FilterSpec(rows, entries + [e]).Ok? ==>
              |FilterSpec(rows, entries + [e]).value| <= |FilterSpec(rows, entries).value|
  {
    FilterIsConjunction(rows, entries);
    var ps := Predicates(entries).value;
    var view := Where(rows, ps);
    assert FilterSpec(rows, entries) == Ok(view);
    PredicatesAppend(entries, e);
    FilterIsConjunction(view, entries + [e]);
    FilterIsConjunction(rows, entries + [e]);
    if Classify(e).Ok? {
      var q := [Classify(e).value];
      assert Predicates(entries + [e]) == Ok(ps + q);
      WhereWhere(rows, ps, ps + q);
      WhereAbsorbs(rows, ps, q);
      WhereWhere(rows, ps, q);
    }
  }

  // ---------------------------------------------------------------------------
  // One entry at a time

  /** A falsy entry leaves the table as it is. */
  lemma FalsyEntryIsNoOp(rows: seq<Accident>, column: string, v: FilterValue)
    requires Falsy(v)
    ensures FilterSpec(rows, [(v, column)]) == Ok(rows)
  {
    AllFalsyIsIdentity(rows, [(v, column)]);
  }

  /**
   * A `'data_hora'` entry holding two timestamps keeps exactly the rows with
   * `start <= data_hora <= finish`. The column decides the branch before the
   * list test: a two-element list of timestamps is a range too, not a set.
   */
  lemma DateRangeEntry(rows: seq<Accident>, v: FilterValue, start: int, finish: int)
    requires v == Pair(Stamp(start), Stamp(finish)) || v == Items([Stamp(start), Stamp(finish)])
    ensures FilterSpec(rows, [(v, "data_hora")]).Ok?
    ensures forall r :: r in FilterSpec(rows, [(v, "data_hora")]).value <==>
                          r in rows && start <= r.dataHora <= finish
    ensures forall r :: multiset(FilterSpec(rows, [(v, "data_hora")]).value)[r] ==
                          if start <= r.dataHora <= finish then multiset(rows)[r] else 0
    ensures IsSubsequence(FilterSpec(rows, [(v, "data_hora")]).value, rows)
  {
    var p := DateRange(start, finish);
    assert Classify((v, "data_hora")) == Ok(p);
    var kept := Where(rows, [p]);
    assert FilterSpec(rows, [(v, "data_hora")]) == FilterSpec(kept, []) == Ok(kept);
    forall r ensures HoldsAll([p], r) <==> start <= r.dataHora <= finish {
      assert [p][0] == p;
    }
  }

  /** A non-empty list on another column keeps exactly the rows whose value is in the list (`isin`). */
  lemma SetEntry(rows: seq<Accident>, column: string, values: seq<Cell>)
    requires column != "data_hora" && KnownColumn(column) && values != []
    ensures FilterSpec(rows, [(Items(values), column)]).Ok?
    ensures forall r :: r in FilterSpec(rows, [(Items(values), column)]).value <==>
                          r in rows && ColumnValue(r, column).Some? && ColumnValue(r, column).value in values
    ensures forall r :: multiset(FilterSpec(rows, [(Items(values), column)]).value)[r] ==
                          if ColumnValue(r, column).Some? && ColumnValue(r, column).value in values
                          then multiset(rows)[r] else 0
    ensures IsSubsequence(FilterSpec(rows, [(Items(values), column)]).value, rows)
  {
    var p := Set(column, values);
    assert Classify((Items(values), column)) == Ok(p);
    var kept := Where(rows, [p]);
    assert FilterSpec(rows, [(Items(values), column)]) == FilterSpec(kept, []) == Ok(kept);
    forall r ensures HoldsAll([p], r) == Holds(p, r) {
      assert [p][0] == p;
    }
  }

  /** A truthy scalar on another column keeps exactly the rows equal to it; NaN equals nothing. */
  lemma ScalarEntry(rows: seq<Accident>, column: string, c: Cell)
    requires column != "data_hora" && KnownColumn(column) && !Falsy(Atom(c))
    ensures FilterSpec(rows, [(Atom(c), column)]).Ok?
    ensures forall r :: r in FilterSpec(rows, [(Atom(c), column)]).value <==>
                          r in rows && c != Missing && ColumnValue(r, column) == Some(c)
    ensures forall r :: multiset(FilterSpec(rows, [(Atom(c), column)]).value)[r] ==
                          if c != Missing && ColumnValue(r, column) == Some(c) then multiset(rows)[r] else 0
    ensures IsSubsequence(FilterSpec(rows, [(Atom(c), column)]).value, rows)
  {
    var p := Scalar(column, c);
    assert Classify((Atom(c), column)) == Ok(p);
    var kept := Where(rows, [p]);
    assert FilterSpec(rows, [(Atom(c), column)]) == FilterSpec(kept, []) == Ok(kept);
    forall r ensures HoldsAll([p], r) == Holds(p, r) {
      assert [p][0] == p;
    }
  }

  /** An unknown column raises `KeyError` as soon as its entry is truthy. */
  lemma UnknownColumnRaises(rows: seq<Accident>, column: string, v: FilterValue)
    requires !Falsy(v) && column != "data_hora" && !KnownColumn(column)
    ensures FilterSpec(rows, [(v, column)]) == Err(KeyError(column))
  {
  }
}
