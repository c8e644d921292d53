/**
 * The geometry half of pages/3_Mapa.py: the quote normalisation of a stored
 * `local` string, the FeatureCollection envelope (GeoJSON, section 3.3 of
 * RFC 7946), and the dispatch that turns one feature into map overlays with the
 * coordinates flipped from (lon, lat) to (lat, lon).
 *
 * JSON is a value here, not text: `json.loads` and `json.dumps` are not part of
 * this model, and numbers keep the text they were written with.
 */
module Geometry {
  import opened Wrappers

  datatype Json =
    | JNull
    | JBool(b: bool)
    | JNumber(literal: string)
    | JString(s: string)
    | JArray(items: seq<Json>)
    | JObject(members: map<string, Json>)

  /** The Python exceptions the map page can raise while reading a stored geometry. */
  datatype RenderError =
    | JsonDecodeError        // `json.loads` rejected the normalised text
    | KeyError(key: string)  // a dict lacks the key
    | IndexError             // a list is too short
    | TypeError              // a subscript on a value that is not a dict or a list

  // ---------------------------------------------------------------------------
  // Quote normalisation

  /** `s.replace(c, '')`. */
  function RemoveChar(s: string, c: char): (r: string)
    ensures c !in r
    ensures |r| == |s| - multiset(s)[c]
    ensures forall d :: d != c ==> multiset(r)[d] == multiset(s)[d]
  {
    if s == [] then []
    else
      assert s == [s[0]] + s[1..];
      (if s[0] == c then [] else [s[0]]) + RemoveChar(s[1..], c)
  }

  /** `s.replace(c, d)`. */
  function ReplaceChar(s: string, c: char, d: char): (r: string)
    ensures |r| == |s|
    ensures forall i :: 0 <= i < |s| ==> r[i] == (if s[i] == c then d else s[i])
  {
    if s == [] then [] else [if s[0] == c then d else s[0]] + ReplaceChar(s[1..], c, d)
  }

  /** Replacing `c` by a different `d` moves all of `c`'s occurrences over to `d`. */
  lemma {:induction false} ReplaceCharCounts(s: string, c: char, d: char)
    requires c != d
    ensures c !in ReplaceChar(s, c, d)
    ensures multiset(ReplaceChar(s, c, d))[d] == multiset(s)[d] + multiset(s)[c]
  {
    if s != [] {
      ReplaceCharCounts(s[1..], c, d);
      assert s == [s[0]] + s[1..];
      assert ReplaceChar(s, c, d) == [ReplaceChar(s, c, d)[0]] + ReplaceChar(s[1..], c, d);
    }
  }

  /** `geojson_string.replace('"', '').replace("'", '"')`. */
  function NormaliseQuotes(s: string): string
  {
    ReplaceChar(RemoveChar(s, '"'), '\'', '"')
  }

  /**
   * The normalised text has no apostrophe, one double quote per apostrophe of
   * the input, and is shorter than the input by the input's double quotes.
   */
  lemma NormaliseQuotesCounts(s: string)
    ensures '\'' !in NormaliseQuotes(s)
    ensures multiset(NormaliseQuotes(s))['"'] == multiset(s)['\'']
    ensures |NormaliseQuotes(s)| == |s| - multiset(s)['"']
  {
    ReplaceCharCounts(RemoveChar(s, '"'), '\'', '"');
  }

  lemma {:induction false} RemoveAbsent(s: string, c: char)
    requires c !in s
    ensures RemoveChar(s, c) == s
  {
    if s != [] {
      RemoveAbsent(s[1..], c);
    }
  }

  /**
   * A strict JSON text without apostrophes, written with apostrophes in place of
   * its double quotes (as Python prints a dict), is normalised back to itself.
   */
  lemma NormaliseQuotesRoundTrip(t: string)
    requires '\'' !in t
    ensures NormaliseQuotes(ReplaceChar(t, '"', '\'')) == t
  {
    var u := ReplaceChar(t, '"', '\'');
    ReplaceCharCounts(t, '"', '\'');
    RemoveAbsent(u, '"');
    var v := ReplaceChar(u, '\'', '"');
    forall i | 0 <= i < |t| ensures v[i] == t[i] {
    }
  }

  // ---------------------------------------------------------------------------
  // The FeatureCollection envelope

  /** `convert_to_feature_collection` after parsing: one feature in a FeatureCollection. */
  function ToFeatureCollection(data: Json): Json
  {
    JObject(map["type" := JString("FeatureCollection"), "features" := JArray([data])])
  }

  /** `d[key]` on a parsed JSON value. */
  function Lookup(j: Json, key: string): (r: Result<Json, RenderError>)
    ensures r.Ok? <==> j.JObject? && key in j.members
    ensures r.Ok? ==> r.value == j.members[key]
  {
    match j
    case JObject(m) => if key in m then Ok(m[key]) else Err(KeyError(key))
    case _ => Err(TypeError)
  }

  /** `geojson_data['features']`, which the loop then iterates. */
  function Features(collection: Json): Result<seq<Json>, RenderError>
  {
    match Lookup(collection, "features")
    case Ok(JArray(items)) => Ok(items)
    case Ok(_) => Err(TypeError)
    case Err(e) => Err(e)
  }

  /**
   * The envelope is a FeatureCollection whose feature list is exactly the
   * wrapped value: reading the features back gives that one value.
   */
  lemma FeatureCollectionRoundTrip(data: Json)
    ensures Lookup(ToFeatureCollection(data), "type") == Ok(JString("FeatureCollection"))
    ensures Features(ToFeatureCollection(data)) == Ok([data])
  {
  }

  // ---------------------------------------------------------------------------
  // Overlays

  /** A map location `[lat, lon]`; coordinates are carried as parsed and never computed on. */
  datatype LatLon = LatLon(lat: Json, lon: Json)

  /** What a feature adds to the map, with the popup of its operation. */
  datatype Overlay<P> =
    | Marker(location: LatLon, popup: P)
    | PolyLine(locations: seq<LatLon>, popup: P)

  /** `coordinates[i]` on a parsed JSON value. */
  function Index(j: Json, i: nat): (r: Result<Json, RenderError>)
    ensures r.Ok? <==> j.JArray? && i < |j.items|
    ensures r.Ok? ==> r.value == j.items[i]
  {
    match j
    case JArray(items) => if i < |items| then Ok(items[i]) else Err(IndexError)
    case _ => Err(TypeError)
  }

  /** `[coord[1], coord[0]]`: a GeoJSON position (lon, lat) flipped to a map location. */
  function Flip(coord: Json): (r: Result<LatLon, RenderError>)
    ensures r.Ok? <==> coord.JArray? && |coord.items| >= 2
    ensures r.Ok? ==> r.value == LatLon(coord.items[1], coord.items[0])
  {
    match Index(coord, 1)
    case Err(e) => Err(e)
    case Ok(lat) => match Index(coord, 0)
      case Err(e) => Err(e)
      case Ok(lon) => Ok(LatLon(lat, lon))
  }

  /** The list comprehension over a LineString's positions; the first bad position raises. */
  function FlipAll(coords: seq<Json>): (r: Result<seq<LatLon>, RenderError>)
    ensures r.Ok? <==> forall i :: 0 <= i < |coords| ==> Flip(coords[i]).Ok?
    ensures r.Ok? ==> |r.value| == |coords| && forall i :: 0 <= i < |coords| ==> r.value[i] == Flip(coords[i]).value
  {
    if coords == [] then Ok([])
    else match Flip(coords[0])
      case Err(e) => Err(e)
      case Ok(p) =>
        match FlipAll(coords[1..])
        case Err(e) => Err(e)
        case Ok(ps) => Ok([p] + ps)
  }

  /**
   * The body of the feature loop: read the geometry's type and coordinates (both,
   * whatever the type), then draw a marker for a Point, a polyline for a
   * LineString, and nothing for any other type.
   */
  function Dispatch<P>(feature: Json, popup: P): Result<seq<Overlay<P>>, RenderError>
  {
    match Lookup(feature, "geometry")
    case Err(e) => Err(e)
    case Ok(geometry) =>
      match Lookup(geometry, "type")
      case Err(e) => Err(e)
      case Ok(geomType) =>
        match Lookup(geometry, "coordinates")
        case Err(e) => Err(e)
        case Ok(coordinates) =>
          if geomType == JString("Point") then
            match Flip(coordinates)
            case Err(e) => Err(e)
            case Ok(location) => Ok([Marker(location, popup)])
          else if geomType == JString("LineString") then
            match coordinates
            case JArray(positions) =>
              (match FlipAll(positions)
               case Err(e) => Err(e)
               case Ok(locations) => Ok([PolyLine(locations, popup)]))
            case _ => Err(TypeError)
          else Ok([])
  }

  /** A feature draws at most one overlay, and it carries the popup it was given. */
  lemma DispatchAtMostOne<P>(feature: Json, popup: P)
    requires Dispatch(feature, popup).Ok?
    ensures |Dispatch(feature, popup).value| <= 1
    ensures forall o :: o in Dispatch(feature, popup).value ==> o.popup == popup
  {
  }

  /** A well-formed feature of the given type and coordinates. */
  function Feature(geomType: string, coordinates: Json): Json
  {
    JObject(map["type" := JString("Feature"),
                "geometry" := JObject(map["type" := JString(geomType), "coordinates" := coordinates])])
  }

  /** A Point yields one marker at `[coordinates[1], coordinates[0]]`. */
  lemma DispatchPoint<P>(lon: Json, lat: Json, rest: seq<Json>, popup: P)
    ensures Dispatch(Feature("Point", JArray([lon, lat] + rest)), popup) == Ok([Marker(LatLon(lat, lon), popup)])
  {
    var c := JArray([lon, lat] + rest);
    assert Flip(c) == Ok(LatLon(lat, lon));
  }

  /** A Point whose coordinates are not a list of two or more raises instead. */
  lemma DispatchBadPoint<P>(coordinates: Json, popup: P)
    requires !(coordinates.JArray? && |coordinates.items| >= 2)
    ensures Dispatch(Feature("Point", coordinates), popup).Err?
  {
  }

  /**
   * A LineString yields one polyline with a location per position, in the same
   * order, each flipped to (lat, lon); flipping every location back recovers the
   * positions of a LineString whose positions are pairs.
   */
  lemma DispatchLineString<P>(positions: seq<Json>, popup: P)
    requires forall i :: 0 <= i < |positions| ==> positions[i].JArray? && |positions[i].items| >= 2
    ensures var r := Dispatch(Feature("LineString", JArray(positions)), popup);
            r.Ok? && |r.value| == 1 && r.value[0].PolyLine? && r.value[0].popup == popup &&
            |r.value[0].locations| == |positions| &&
            forall i :: 0 <= i < |positions| ==>
              r.value[0].locations[i] == LatLon(positions[i].items[1], positions[i].items[0])
  {
  }

  /** The GeoJSON position `[lon, lat]` of a map location. */
  function Unflip(p: LatLon): (c: Json)
    ensures Flip(c) == Ok(p)
  {
    JArray([p.lon, p.lat])
  }

  lemma LineStringRoundTrip<P>(positions: seq<Json>, popup: P)
    requires forall i :: 0 <= i < |positions| ==> positions[i].JArray? && |positions[i].items| == 2
    ensures var r := Dispatch(Feature("LineString", JArray(positions)), popup);
            r.Ok? && |r.value| == 1 && r.value[0].PolyLine? &&
            seq(|r.value[0].locations|, i requires 0 <= i < |r.value[0].locations| => Unflip(r.value[0].locations[i])) == positions
  {
    DispatchLineString(positions, popup);
    var ls := Dispatch(Feature("LineString", JArray(positions)), popup).value[0].locations;
    var back := seq(|ls|, i requires 0 <= i < |ls| => Unflip(ls[i]));
    forall i | 0 <= i < |positions| ensures back[i] == positions[i] {
      assert positions[i].items == [positions[i].items[0], positions[i].items[1]];
    }
  }

  /** Any other geometry type draws nothing and raises nothing, once it has coordinates. */
  lemma DispatchOtherType<P>(geomType: Json, coordinates: Json, popup: P)
    requires geomType != JString("Point") && geomType != JString("LineString")
    ensures Dispatch(JObject(map["geometry" := JObject(map["type" := geomType, "coordinates" := coordinates])]), popup) == Ok([])
  {
  }

  /** A geometry without coordinates raises KeyError whatever its type, even a skipped one. */
  lemma DispatchNeedsCoordinates<P>(geomType: Json, popup: P)
    ensures Dispatch(JObject(map["geometry" := JObject(map["type" := geomType])]), popup) == Err(KeyError("coordinates"))
  {
    var g := JObject(map["type" := geomType]);
    assert "coordinates" !in g.members;
  }
}
