/** GeoJSON export of image records (RFC 7946): a FeatureCollection
    (section 3.3) holding one Point Feature (section 3.2) per record, whose
    position lists longitude before latitude (section 3.1.1). A reader for
    the same shape states what the export preserves. */
module GeoJson {
  import opened Wrappers
  import opened Records

  const FilenameKey: string := "filename"
  const CountKey: string := "plastic_count"

  /** A property value: the export only writes strings and integers. */
  datatype Value = Str(s: string) | Int(i: int)

  datatype Geometry = Geometry(kind: string, coordinates: seq<real>)

  datatype Feature = Feature(kind: string, geometry: Geometry, properties: map<string, Value>)

  datatype FeatureCollection = FeatureCollection(kind: string, features: seq<Feature>)

  /** A Feature whose geometry is a two-dimensional Point. */
  predicate IsPointFeature(f: Feature) {
    && f.kind == "Feature"
    && f.geometry.kind == "Point"
    && |f.geometry.coordinates| == 2
  }

  /** The Feature written for one record. */
  function ToFeature(r: DetectionRecord): (f: Feature)
    ensures IsPointFeature(f)
    ensures f.properties.Keys == {FilenameKey, CountKey}
  {
    Feature(
      "Feature",
      Geometry("Point", [r.longitude, r.latitude]),
      map[FilenameKey := Str(r.filename), CountKey := Int(r.plasticCount)])
  }

  /** The whole document: one Feature per record, in record order. */
  function ExportGeoJson(rs: seq<DetectionRecord>): (fc: FeatureCollection)
    ensures fc.kind == "FeatureCollection"
    ensures |fc.features| == |rs|
    ensures forall i :: 0 <= i < |rs| ==> IsPointFeature(fc.features[i])
  {
    FeatureCollection("FeatureCollection", seq(|rs|, i requires 0 <= i < |rs| => ToFeature(rs[i])))
  }

  /** Reads a record back from a Feature: a Point with a two-element
      `[longitude, latitude]` position and exactly the `filename` and
      `plastic_count` properties; anything else is rejected. */
  function FromFeature(f: Feature): Option<DetectionRecord> {
    if && IsPointFeature(f)
       && f.properties.Keys == {FilenameKey, CountKey}
       && f.properties[FilenameKey].Str?
       && f.properties[CountKey].Int?
       && f.properties[CountKey].i >= 0
    then
      Some(DetectionRecord(
        f.properties[FilenameKey].s,
        f.geometry.coordinates[1],
        f.geometry.coordinates[0],
        f.properties[CountKey].i))
    else None
  }

  /** Reads every Feature in order; fails if any one is rejected. */
  function FromFeatures(fs: seq<Feature>): (r: Option<seq<DetectionRecord>>)
    ensures r.Some? ==> |r.value| == |fs|
  {
    if fs == [] then Some([])
    else match (FromFeature(fs[0]), FromFeatures(fs[1..]))
      case (Some(x), Some(xs)) => Some([x] + xs)
      case _ => None
  }

  /** Reads a FeatureCollection document. */
  function FromGeoJson(fc: FeatureCollection): Option<seq<DetectionRecord>> {
    if fc.kind == "FeatureCollection" then FromFeatures(fc.features) else None
  }

  /** Each exported Feature carries the record's position as
      `[longitude, latitude]` and its file name and count unchanged:
      reading it back yields the record. */
  lemma FeatureRoundTrip(r: DetectionRecord)
    ensures ToFeature(r).geometry.coordinates == [r.longitude, r.latitude]
    ensures ToFeature(r).properties[FilenameKey] == Str(r.filename)
    ensures ToFeature(r).properties[CountKey] == Int(r.plasticCount)
    ensures FromFeature(ToFeature(r)) == Some(r)
  {
  }

  lemma {:induction false} FromFeaturesRoundTrip(fs: seq<Feature>, rs: seq<DetectionRecord>)
    requires |fs| == |rs|
    requires forall i :: 0 <= i < |rs| ==> fs[i] == ToFeature(rs[i])
    ensures FromFeatures(fs) == Some(rs)
  {
    if rs != [] {
      FeatureRoundTrip(rs[0]);
      FromFeaturesRoundTrip(fs[1..], rs[1..]);
      assert rs == [rs[0]] + rs[1..];
    }
  }

  /** The exported document reads back as exactly the input records, in
      order: no record is lost, added, reordered or altered. */
  lemma ExportRoundTrip(rs: seq<DetectionRecord>)
    ensures FromGeoJson(ExportGeoJson(rs)) == Some(rs)
  {
    FromFeaturesRoundTrip(ExportGeoJson(rs).features, rs);
  }

  /** Distinct record lists never produce the same document. */
  lemma ExportInjective(rs: seq<DetectionRecord>, ss: seq<DetectionRecord>)
    requires ExportGeoJson(rs) == ExportGeoJson(ss)
    ensures rs == ss
  {
    ExportRoundTrip(rs);
    ExportRoundTrip(ss);
  }
}
