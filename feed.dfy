/** The live feed: `get_data` turns the already-decoded GeoJSON document of
    the earthquake feed into the event table. Geometry coordinates are
    ordered longitude, latitude, depth (RFC 7946, section 3.1.1). */
module Feed {
  import opened Common
  import opened Events

  /** `feature['properties']`; a field that is absent or null is `None`. */
  datatype Properties = Properties(time: Option<int>, mag: Option<int>, place: Option<string>)

  /** `feature['geometry']`. */
  datatype Geometry = Geometry(coordinates: Option<seq<real>>)

  datatype Feature = Feature(properties: Option<Properties>, geometry: Option<Geometry>)

  /** The decoded response; `features` is `None` when the key is missing. */
  datatype Document = Document(features: Option<seq<Feature>>)

  /** Every lookup the loop body makes on `f` succeeds. */
  predicate WellFormed(f: Feature) {
    && f.properties.Some?
    && f.properties.value.time.Some?
    && f.properties.value.mag.Some?
    && f.properties.value.place.Some?
    && f.geometry.Some?
    && f.geometry.value.coordinates.Some?
    && |f.geometry.value.coordinates.value| >= 3
  }

  /** The row the loop appends for a well-formed feature. */
  function Record(f: Feature): Event
    requires WellFormed(f)
  {
    var p := f.properties.value;
    var c := f.geometry.value.coordinates.value;
    Event(p.time.value, p.mag.value, p.place.value, c[2], c[1], c[0])
  }

  /** `pd.DataFrame(d)` for a list of six-key records: no columns when `d` is empty. */
  function FromRecords(d: seq<Event>): Table {
    if d == [] then EmptyTable else Table(RequiredColumns, d)
  }

  /** `get_data()` after the HTTP request: `resp` is `None` when the request
      or the JSON decoding failed. Any failure, including a malformed
      feature anywhere in the list, yields the empty table and never a
      partial one; otherwise there is one row per feature, in feed order. */
  method GetData(resp: Option<Document>) returns (t: Table)
    ensures resp.None? || resp.value.features.None? ==> t == EmptyTable
    ensures resp.Some? && resp.value.features.Some? ==>
      var fs := resp.value.features.value;
      && ((exists i :: 0 <= i < |fs| && !WellFormed(fs[i])) ==> t == EmptyTable)
      && ((forall i :: 0 <= i < |fs| ==> WellFormed(fs[i])) ==>
            && |t.rows| == |fs|
            && (forall i :: 0 <= i < |fs| ==>
                  var p, c := fs[i].properties.value, fs[i].geometry.value.coordinates.value;
                  t.rows[i] == Event(p.time.value, p.mag.value, p.place.value, c[2], c[1], c[0]))
            && t.columns == if fs == [] then {} else RequiredColumns)
  {
    if resp.None? || resp.value.features.None? {
      return EmptyTable;
    }
    var fs := resp.value.features.value;
    var d: seq<Event> := [];
    var i := 0;
    while i < |fs|
      invariant 0 <= i <= |fs| && |d| == i
      invariant forall j :: 0 <= j < i ==> WellFormed(fs[j]) && d[j] == Record(fs[j])
    {
      if !WellFormed(fs[i]) {
        return EmptyTable;
      }
      d := d + [Record(fs[i])];
      i := i + 1;
    }
    t := FromRecords(d);
  }
}
