/**
 * The operations half of pages/3_Mapa.py: `add_dados`, which appends one
 * operation to data/operacoes.csv and to the table, and the loop that draws
 * every operation of the table on the map with its popup.
 */
module Operations {
  import opened Wrappers
  import opened Records
  import opened Geometry

  /** One row of data/operacoes.csv, its sixteen columns in file order. */
  datatype Operation = Operation(
    nome: Field,
    tipo: Field,
    concessionaria: Field,
    responsavel: Field,
    cttResponsavel: Field,
    logradouro: Field,
    numero: Field,
    cruzamento: Field,
    dtInicio: Field,
    hrInicio: Field,
    dtFimPrev: Field,
    hrFimPrev: Field,
    dtFim: Field,
    hrFim: Field,
    descricao: Field,
    local: Field)

  /** The row's cells in column order. */
  function Columns(op: Operation): (cells: seq<Field>)
    ensures |cells| == 16
  {
    [op.nome, op.tipo, op.concessionaria, op.responsavel, op.cttResponsavel,
     op.logradouro, op.numero, op.cruzamento, op.dtInicio, op.hrInicio,
     op.dtFimPrev, op.hrFimPrev, op.dtFim, op.hrFim, op.descricao, op.local]
  }

  /**
   * `dados_mapeados`: the fourteen form values in order, with no end date or
   * end time yet; a shorter input raises IndexError.
   */
  function MapDados(dados: seq<Field>): (r: Result<Operation, RenderError>)
    ensures r.Err? <==> |dados| < 14
    ensures r.Err? ==> r.error == IndexError
  {
    if |dados| < 14 then Err(IndexError)
    else Ok(Operation(dados[0], dados[1], dados[2], dados[3], dados[4], dados[5], dados[6],
                      dados[7], dados[8], dados[9], dados[10], dados[11], None, None,
                      dados[12], dados[13]))
  }

  /** The form values an operation was made from: every column but the two end columns. */
  function FormValues(op: Operation): (dados: seq<Field>)
    ensures |dados| == 14
  {
    Columns(op)[..12] + Columns(op)[14..]
  }

  /**
   * The new row holds the first twelve form values in the first twelve columns,
   * two empty end columns, then the description and the geometry; and it is
   * exactly the operation whose form values are the input's first fourteen.
   */
  lemma MapDadosColumns(dados: seq<Field>)
    requires |dados| >= 14
    ensures Columns(MapDados(dados).value) == dados[..12] + [None, None] + dados[12..14]
    ensures FormValues(MapDados(dados).value) == dados[..14]
  {
  }

  /** Mapping the form values of an operation without end columns gives it back. */
  lemma MapDadosRoundTrip(op: Operation)
    requires op.dtFim == None && op.hrFim == None
    ensures MapDados(FormValues(op)) == Ok(op)
  {
    var d := FormValues(op);
    assert d[12] == op.descricao && d[13] == op.local;
  }

  /** data/operacoes.csv as the rows it holds; `to_csv(mode='a')` appends to them. */
  class OperationsFile {
    var rows: seq<Operation>

    constructor (rows: seq<Operation>)
      ensures this.rows == rows
    {
      this.rows := rows;
    }

    method Append(op: Operation)
      modifies this
      ensures rows == old(rows) + [op]
    {
      rows := rows + [op];
    }
  }

  /**
   * `add_dados`: the new operation goes at the end of the file and at the end of
   * the table, and nothing before it changes; a short input raises before
   * anything is written.
   */
  method AddDados(file: OperationsFile, df: seq<Operation>, dados: seq<Field>)
    returns (r: Result<seq<Operation>, RenderError>)
    modifies file
    ensures r.Err? <==> |dados| < 14
    ensures r.Err? ==> r.error == IndexError && file.rows == old(file.rows)
    ensures r.Ok? ==> r.value == df + [MapDados(dados).value] &&
                      file.rows == old(file.rows) + [MapDados(dados).value]
  {
    var row := MapDados(dados);
    if row.Err? {
      return Err(row.error);
    }
    file.Append(row.value);
    r := Ok(df + [row.value]);
  }

  /** A table one row longer whose earlier rows are untouched and whose last row is the new one. */
  lemma AddDadosAppends(df: seq<Operation>, dados: seq<Field>, added: seq<Operation>)
    requires |dados| >= 14 && added == df + [MapDados(dados).value]
    ensures |added| == |df| + 1 && added[..|df|] == df
    ensures added[|df|].dtFim == None && added[|df|].local == dados[13]
  {
  }

  // ---------------------------------------------------------------------------
  // The popup

  /** How an f-string prints a cell: a missing one prints as "nan". */
  function Display(f: Field): string
  {
    match f
    case Some(s) => s
    case None => "nan"
  }

  /** `endereco` of the popup: street, number and cross street, separated by single spaces. */
  function Endereco(op: Operation): (e: string)
    ensures |e| == |Display(op.logradouro)| + |Display(op.numero)| + |Display(op.cruzamento)| + 2
    ensures e[..|Display(op.logradouro)|] == Display(op.logradouro)
    ensures e[|Display(op.logradouro)|] == ' '
    ensures e[|Display(op.logradouro)| + 1..|e| - |Display(op.cruzamento)| - 1] == Display(op.numero)
    ensures e[|e| - |Display(op.cruzamento)|..] == Display(op.cruzamento)
    ensures e[|e| - |Display(op.cruzamento)| - 1] == ' '
  {
    Display(op.logradouro) + " " + Display(op.numero) + " " + Display(op.cruzamento)
  }

  /** The text of an operation's popup; its HTML layout is not part of this model. */
  datatype Popup = Popup(nome: string, inicio: string, endereco: string, responsavel: string, descricao: string)

  function PopupOf(op: Operation): Popup
  {
    Popup(Display(op.nome), Display(op.dtInicio) + " " + Display(op.hrInicio), Endereco(op),
          Display(op.responsavel), Display(op.descricao))
  }

  // ---------------------------------------------------------------------------
  // Drawing the table

  /**
   * The features of one stored geometry: `str(row['local'])` normalised, parsed
   * by `parse` (None when `json.loads` raises), and wrapped as a FeatureCollection.
   */
  function RowFeatures(op: Operation, parse: string -> Option<Json>): Result<seq<Json>, RenderError>
  {
    match parse(NormaliseQuotes(Display(op.local)))
    case None => Err(JsonDecodeError)
    case Some(data) => Features(ToFeatureCollection(data))
  }

  /** Appending `done` to a successful outcome. */
  function After<T>(done: seq<T>, r: Result<seq<T>, RenderError>): Result<seq<T>, RenderError>
  {
    match r
    case Ok(rest) => Ok(done + rest)
    case Err(e) => Err(e)
  }

  /** The overlays of a feature list, in order; the first failing feature raises. */
  function DispatchAll(features: seq<Json>, popup: Popup): Result<seq<Overlay<Popup>>, RenderError>
  {
    if features == [] then Ok([])
    else match Dispatch(features[0], popup)
      case Err(e) => Err(e)
      case Ok(os) => After(os, DispatchAll(features[1..], popup))
  }

  function RowOverlays(op: Operation, parse: string -> Option<Json>): Result<seq<Overlay<Popup>>, RenderError>
  {
    match RowFeatures(op, parse)
    case Err(e) => Err(e)
    case Ok(features) => DispatchAll(features, PopupOf(op))
  }

  /** Each row's outcome, in table order. */
  function RowResults(df: seq<Operation>, parse: string -> Option<Json>): (rs: seq<Result<seq<Overlay<Popup>>, RenderError>>)
    ensures |rs| == |df|
  {
    if df == [] then [] else [RowOverlays(df[0], parse)] + RowResults(df[1..], parse)
  }

  lemma {:induction false} RowResultsAt(df: seq<Operation>, parse: string -> Option<Json>, i: nat)
    requires i < |df|
    ensures RowResults(df, parse)[i] == RowOverlays(df[i], parse)
  {
    if i > 0 {
      RowResultsAt(df[1..], parse, i - 1);
    }
  }

  /** The outcomes one after the other: all the overlays in order, or the first exception. */
  function Chain<T>(results: seq<Result<seq<T>, RenderError>>): Result<seq<T>, RenderError>
  {
    if results == [] then Ok([])
    else match results[0]
      case Err(e) => Err(e)
      case Ok(os) => After(os, Chain(results[1..]))
  }

  /** The overlays of the whole table, row by row; the first failing row raises. */
  function RenderAll(df: seq<Operation>, parse: string -> Option<Json>): Result<seq<Overlay<Popup>>, RenderError>
  {
    Chain(RowResults(df, parse))
  }

  lemma AfterNothing<T>(r: Result<seq<T>, RenderError>)
    ensures After([], r) == r
  {
    if r.Ok? {
      assert [] + r.value == r.value;
    }
  }

  lemma AfterAfter<T>(a: seq<T>, b: seq<T>, r: Result<seq<T>, RenderError>)
    ensures After(a, After(b, r)) == After(a + b, r)
  {
    if r.Ok? {
      assert a + (b + r.value) == (a + b) + r.value;
    }
  }

  /** The map `m2`, as the overlays added to it so far. */
  class MapCanvas {
    var overlays: seq<Overlay<Popup>>

    constructor ()
      ensures overlays == []
    {
      overlays := [];
    }

    /** `.add_to(m2)`. */
    method AddTo(o: Overlay<Popup>)
      modifies this
      ensures overlays == old(overlays) + [o]
    {
      overlays := overlays + [o];
    }
  }

  /** The `add_to` calls of one feature's overlays, in order. */
  method DrawOverlays(os: seq<Overlay<Popup>>, canvas: MapCanvas)
    modifies canvas
    ensures canvas.overlays == old(canvas.overlays) + os
  {
    var j := 0;
    while j < |os|
      invariant 0 <= j <= |os|
      invariant canvas.overlays == old(canvas.overlays) + os[..j]
    {
      canvas.AddTo(os[j]);
      assert os[..j + 1] == os[..j] + [os[j]];
      j := j + 1;
    }
    assert os[..j] == os;
  }

  /**
   * The loop over `features_list`: on success the map gains exactly the overlays
   * `DispatchAll` describes; otherwise the first exception is raised.
   */
  method DrawFeatures(features: seq<Json>, popup: Popup, canvas: MapCanvas)
    returns (r: Result<(), RenderError>)
    modifies canvas
    ensures DispatchAll(features, popup).Ok? ==>
              r.Ok? && canvas.overlays == old(canvas.overlays) + DispatchAll(features, popup).value
    ensures DispatchAll(features, popup).Err? ==> r == Err(DispatchAll(features, popup).error)
  {
    ghost var drawn: seq<Overlay<Popup>> := [];
    AfterNothing(DispatchAll(features, popup));
    var k := 0;
    while k < |features|
      invariant 0 <= k <= |features|
      invariant canvas.overlays == old(canvas.overlays) + drawn
      invariant DispatchAll(features, popup) == After(drawn, DispatchAll(features[k..], popup))
    {
      assert features[k..][1..] == features[k + 1..];
      var out := Dispatch(features[k], popup);
      if out.Err? {
        return Err(out.error);
      }
      DrawOverlays(out.value, canvas);
      AfterAfter(drawn, out.value, DispatchAll(features[k + 1..], popup));
      drawn := drawn + out.value;
      k := k + 1;
    }
    assert features[k..] == [];
    assert drawn + [] == drawn;
    r := Ok(());
  }

  /**
   * One pass of the loop over the table: read the row's stored geometry, then
   * draw its features with the row's popup.
   */
  method DrawRow(df: seq<Operation>, i: nat, parse: string -> Option<Json>, canvas: MapCanvas)
    returns (r: Result<(), RenderError>, ghost row: Result<seq<Overlay<Popup>>, RenderError>)
    requires i < |df|
    modifies canvas
    ensures row == RowResults(df, parse)[i]
    ensures row.Ok? ==> r.Ok? && canvas.overlays == old(canvas.overlays) + row.value
    ensures row.Err? ==> r == Err(row.error)
  {
    var op := df[i];
    RowResultsAt(df, parse, i);
    row := RowOverlays(op, parse);
    var features := RowFeatures(op, parse);
    RowOverlaysSplit(op, parse);
    if features.Err? {
      return Err(features.error), row;
    }
    r := DrawFeatures(features.value, PopupOf(op), canvas);
  }

  /**
   * The loop over `df.iterrows()`: on success the map holds, after what it held
   * before, exactly the overlays `RenderAll` describes; otherwise the first
   * exception is raised.
   */
  method RenderOperations(df: seq<Operation>, parse: string -> Option<Json>, canvas: MapCanvas)
    returns (r: Result<(), RenderError>)
    modifies canvas
    ensures RenderAll(df, parse).Ok? ==> r.Ok? && canvas.overlays == old(canvas.overlays) + RenderAll(df, parse).value
    ensures RenderAll(df, parse).Err? ==> r == Err(RenderAll(df, parse).error)
  {
    ghost var results := RowResults(df, parse);
    ghost var drawn: seq<Overlay<Popup>> := [];
    AfterNothing(Chain(results));
    var i := 0;
    while i < |df|
      invariant 0 <= i <= |df|
      invariant canvas.overlays == old(canvas.overlays) + drawn
      invariant Chain(results) == After(drawn, Chain(results[i..]))
    {
      var drew, row := DrawRow(df, i, parse, canvas);
      if drew.Err? {
        ChainStop(results, i, drawn);
        return drew;
      }
      ChainStep(results, i, drawn);
      Associate(old(canvas.overlays), drawn, row.value);
      drawn := drawn + row.value;
      i := i + 1;
    }
    ChainEnd(results, drawn);
    r := Ok(());
  }

  lemma Associate<T>(a: seq<T>, b: seq<T>, c: seq<T>)
    ensures (a + b) + c == a + (b + c)
  {
  }

  lemma ChainStep<T>(results: seq<Result<seq<T>, RenderError>>, i: nat, drawn: seq<T>)
    requires i < |results| && results[i].Ok?
    requires Chain(results) == After(drawn, Chain(results[i..]))
    ensures Chain(results) == After(drawn + results[i].value, Chain(results[i + 1..]))
  {
    assert results[i..][1..] == results[i + 1..];
    AfterAfter(drawn, results[i].value, Chain(results[i + 1..]));
  }

  lemma ChainStop<T>(results: seq<Result<seq<T>, RenderError>>, i: nat, drawn: seq<T>)
    requires i < |results| && results[i].Err?
    requires Chain(results) == After(drawn, Chain(results[i..]))
    ensures Chain(results) == Err(results[i].error)
  {
  }

  lemma ChainEnd<T>(results: seq<Result<seq<T>, RenderError>>, drawn: seq<T>)
    requires Chain(results) == After(drawn, Chain(results[|results|..]))
    ensures Chain(results) == Ok(drawn)
  {
    assert results[|results|..] == [];
    assert drawn + [] == drawn;
  }

  /** A row draws the overlays of its features, or raises what reading its geometry raised. */
  lemma RowOverlaysSplit(op: Operation, parse: string -> Option<Json>)
    ensures RowFeatures(op, parse).Err? ==> RowOverlays(op, parse) == Err(RowFeatures(op, parse).error)
    ensures RowFeatures(op, parse).Ok? ==> RowOverlays(op, parse) == DispatchAll(RowFeatures(op, parse).value, PopupOf(op))
  {
  }

  /** The chain succeeds iff every outcome does. */
  lemma {:induction false} ChainOk<T>(results: seq<Result<seq<T>, RenderError>>)
    ensures Chain(results).Ok? <==> forall i :: 0 <= i < |results| ==> results[i].Ok?
  {
    if results != [] {
      ChainOk(results[1..]);
      assert forall i :: 1 <= i < |results| ==> results[i] == results[1..][i - 1];
    }
  }

  /** Outcomes of at most one overlay each chain into at most one overlay per outcome, each from some outcome. */
  lemma {:induction false} ChainShape<T>(results: seq<Result<seq<T>, RenderError>>)
    requires Chain(results).Ok?
    requires forall i :: 0 <= i < |results| && results[i].Ok? ==> |results[i].value| <= 1
    ensures |Chain(results).value| <= |results|
    ensures forall o :: o in Chain(results).value ==> exists i :: 0 <= i < |results| && results[i].Ok? && o in results[i].value
  {
    if results != [] {
      var rest := results[1..];
      assert forall i :: 0 <= i < |rest| ==> rest[i] == results[i + 1];
      ChainShape(rest);
      forall o | o in Chain(results).value
        ensures exists i :: 0 <= i < |results| && results[i].Ok? && o in results[i].value
      {
        if o !in results[0].value {
          var i :| 0 <= i < |rest| && rest[i].Ok? && o in rest[i].value;
          assert results[i + 1] == rest[i];
        }
      }
    }
  }

  /**
   * Every stored geometry is one feature, so every operation draws at most one
   * overlay, carrying its own popup, and the table draws them in row order.
   */
  lemma RenderAllShape(df: seq<Operation>, parse: string -> Option<Json>)
    ensures RenderAll(df, parse).Ok? ==> |RenderAll(df, parse).value| <= |df|
    ensures RenderAll(df, parse).Ok? ==>
              forall o :: o in RenderAll(df, parse).value ==> exists op :: op in df && o.popup == PopupOf(op)
  {
    if RenderAll(df, parse).Err? {
      return;
    }
    var results := RowResults(df, parse);
    forall i | 0 <= i < |results| && results[i].Ok? ensures |results[i].value| <= 1 {
      RowResultsAt(df, parse, i);
      RowAtMostOne(df[i], parse);
    }
    ChainShape(results);
    forall o | o in RenderAll(df, parse).value ensures exists op :: op in df && o.popup == PopupOf(op) {
      var i :| 0 <= i < |results| && results[i].Ok? && o in results[i].value;
      RowResultsAt(df, parse, i);
      RowAtMostOne(df[i], parse);
      assert df[i] in df;
    }
  }

  lemma RowAtMostOne(op: Operation, parse: string -> Option<Json>)
    requires RowOverlays(op, parse).Ok?
    ensures |RowOverlays(op, parse).value| <= 1
    ensures forall o :: o in RowOverlays(op, parse).value ==> o.popup == PopupOf(op)
  {
    var data := parse(NormaliseQuotes(Display(op.local))).value;
    FeatureCollectionRoundTrip(data);
    assert RowFeatures(op, parse) == Ok([data]);
    var popup := PopupOf(op);
    assert DispatchAll([data], popup) == After(Dispatch(data, popup).value, DispatchAll([], popup));
    DispatchAtMostOne(data, popup);
    assert RowOverlays(op, parse).value == Dispatch(data, popup).value + [];
  }

  /** The whole table draws iff every one of its operations does. */
  lemma RenderAllOk(df: seq<Operation>, parse: string -> Option<Json>)
    ensures RenderAll(df, parse).Ok? <==> forall op :: op in df ==> RowOverlays(op, parse).Ok?
  {
    var results := RowResults(df, parse);
    ChainOk(results);
    forall i | 0 <= i < |df| ensures results[i] == RowOverlays(df[i], parse) {
      RowResultsAt(df, parse, i);
    }
  }

  /** An operation stored with a Point geometry draws one marker at (lat, lon) with its popup. */
  lemma RowPoint(op: Operation, parse: string -> Option<Json>, lon: Json, lat: Json)
    requires parse(NormaliseQuotes(Display(op.local))) == Some(Feature("Point", JArray([lon, lat])))
    ensures RowOverlays(op, parse) == Ok([Marker(LatLon(lat, lon), PopupOf(op))])
  {
    var data := Feature("Point", JArray([lon, lat]));
    FeatureCollectionRoundTrip(data);
    assert [lon, lat] + [] == [lon, lat];
    DispatchPoint(lon, lat, [], PopupOf(op));
    assert RowFeatures(op, parse) == Ok([data]);
    var m := Marker(LatLon(lat, lon), PopupOf(op));
    assert [data][1..] == [];
    assert DispatchAll([data], PopupOf(op)) == After([m], DispatchAll([], PopupOf(op)));
    assert [m] + [] == [m];
  }
}
