/** GPS extraction from an image's EXIF tags: degrees-minutes-seconds
    triplets converted to decimal degrees. The EXIF parser is outside the
    model; its view of an image is the `ExifImage` record. */
module Gps {
  import opened Wrappers

  /** An EXIF GPS angle: degrees, minutes and seconds. */
  datatype Dms = Dms(degrees: real, minutes: real, seconds: real)

  /** What the EXIF reader exposes about one image. A GPS tag that the file
      lacks is `None` (reading it raises `AttributeError` in the source). */
  datatype ExifImage = ExifImage(
    hasExif: bool,
    gpsLatitude: Option<Dms>,
    gpsLatitudeRef: Option<string>,
    gpsLongitude: Option<Dms>,
    gpsLongitudeRef: Option<string>)

  datatype GpsError = MissingGpsCoordinates

  datatype Coordinates = Coordinates(latitude: real, longitude: real)

  /** Decimal degrees of a DMS angle: `d + m/60 + s/3600`, exact. Scaled
      by 3600 it is the angle's total count of arc-seconds. */
  function ToDecimal(a: Dms): (r: real)
    ensures r * 3600.0 == a.degrees * 3600.0 + a.minutes * 60.0 + a.seconds
    ensures 0.0 <= a.minutes && 0.0 <= a.seconds ==> a.degrees <= r
  {
    a.degrees + a.minutes / 60.0 + a.seconds / 3600.0
  }

  /** The minutes and seconds together amount to less than one degree. */
  predicate SubDegree(a: Dms) {
    0.0 <= a.minutes && 0.0 <= a.seconds && a.minutes * 60.0 + a.seconds < 3600.0
  }

  /** Decimal degrees lie in `[degrees, degrees + 1)` when the minutes and
      seconds are non-negative and make up less than a degree; with
      non-negative components the result is never below the degrees. */
  lemma ToDecimalBounds(a: Dms)
    ensures 0.0 <= a.minutes && 0.0 <= a.seconds ==> a.degrees <= ToDecimal(a)
    ensures SubDegree(a) ==> a.degrees <= ToDecimal(a) < a.degrees + 1.0
  {
  }

  /** One second of arc adds exactly 1/3600 degree, one minute 1/60 degree. */
  lemma ToDecimalSteps(a: Dms)
    ensures ToDecimal(a.(seconds := a.seconds + 1.0)) == ToDecimal(a) + 1.0 / 3600.0
    ensures ToDecimal(a.(minutes := a.minutes + 1.0)) == ToDecimal(a) + 1.0 / 60.0
    ensures ToDecimal(Dms(a.degrees, a.minutes + 1.0, a.seconds - 60.0)) == ToDecimal(a)
  {
  }

  /** 13 degrees 45 minutes 30 seconds is 13.7583..., which rounds to 13.758333. */
  lemma ToDecimalExample()
    ensures ToDecimal(Dms(13.0, 45.0, 30.0)) == 1651.0 / 120.0
    ensures 13.758333 <= ToDecimal(Dms(13.0, 45.0, 30.0)) < 13.7583335
  {
  }

  /** Reads both GPS tags and converts them; a missing tag is the
      "Missing GPS coordinates" error. No sign is applied for the
      hemisphere references. */
  function ExtractGps(img: ExifImage): (r: Result<Coordinates, GpsError>)
    ensures r.Success? <==> img.gpsLatitude.Some? && img.gpsLongitude.Some?
    ensures r.Success? ==>
              && r.value.latitude == ToDecimal(img.gpsLatitude.value)
              && r.value.longitude == ToDecimal(img.gpsLongitude.value)
  {
    match (img.gpsLatitude, img.gpsLongitude)
    case (Some(lat), Some(lon)) => Success(Coordinates(ToDecimal(lat), ToDecimal(lon)))
    case _ => Failure(MissingGpsCoordinates)
  }

  /** The hemisphere references never influence the result: a southern or
      western angle comes out with the same (non-negative) value as a
      northern or eastern one. */
  lemma ExtractGpsIgnoresHemisphere(img: ExifImage, latRef: Option<string>, lonRef: Option<string>)
    ensures ExtractGps(img.(gpsLatitudeRef := latRef, gpsLongitudeRef := lonRef)) == ExtractGps(img)
  {
  }

  /** A south-west fix with non-negative components yields non-negative
      decimal coordinates. */
  lemma SouthWestStaysNonNegative(lat: Dms, lon: Dms)
    requires 0.0 <= lat.degrees && 0.0 <= lat.minutes && 0.0 <= lat.seconds
    requires 0.0 <= lon.degrees && 0.0 <= lon.minutes && 0.0 <= lon.seconds
    ensures var r := ExtractGps(ExifImage(true, Some(lat), Some("S"), Some(lon), Some("W")));
            r.Success? && r.value.latitude >= 0.0 && r.value.longitude >= 0.0
  {
  }
}
