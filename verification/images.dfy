/** Image processing: read the EXIF GPS fix, count plastic detections, build
    one record and export it as a one-Feature GeoJSON document. Every failure
    on the way (no EXIF block, a missing GPS tag) is swallowed and turned
    into an absent result, and then nothing is written. */
module Images {
  import opened Wrappers
  import opened Paths
  import opened Detections
  import opened Gps
  import opened Records
  import opened GeoJson

  /** What processing one image produces: the record handed back to the
      caller, and the GeoJSON document written to `output.geojson`. */
  datatype ImageRun = ImageRun(result: Option<DetectionRecord>, written: Option<FeatureCollection>)

  /** Processes the image at `path`, whose EXIF view is `img` and whose
      detector output is `detections`. */
  function ProcessImage(path: string, img: ExifImage, detections: seq<Detection>): (run: ImageRun)
    ensures run.result.Some? <==> img.hasExif && img.gpsLatitude.Some? && img.gpsLongitude.Some?
    ensures run.written.Some? <==> run.result.Some?
    ensures run.result.Some? ==>
              && run.result.value.filename == Basename(path)
              && '/' !in run.result.value.filename
              && run.result.value.latitude == ToDecimal(img.gpsLatitude.value)
              && run.result.value.longitude == ToDecimal(img.gpsLongitude.value)
              && run.result.value.plasticCount == PlasticCount(detections)
              && run.result.value.plasticCount <= |detections|
    ensures run.result.Some? ==> FromGeoJson(run.written.value) == Some([run.result.value])
  {
    if !img.hasExif then ImageRun(None, None)
    else match ExtractGps(img)
      case Failure(_) => ImageRun(None, None)
      case Success(c) =>
        var data := DetectionRecord(Basename(path), c.latitude, c.longitude, PlasticCount(detections));
        ExportRoundTrip([data]);
        ImageRun(Some(data), Some(ExportGeoJson([data])))
  }
}
