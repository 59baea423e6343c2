/**
  The computed properties of a geotagged image. An image is just its EXIF
  tag mapping, fixed once the file has been read; every property below is a
  function of that mapping, recomputed on each access.
 */
module GpsImage {
  import opened Outcomes
  import opened ExifTags
  import StrReplace

  const ExifNotFound := "ERROR - Exif not found"
  const NoGeometry := "ERROR - No Geometry"
  const StatusOk := "OK"
  const DefaultDatum := "WGS-84"

  /** The GeoJSON-like point `{'type': kind, 'coordinates': coordinates}`. */
  datatype GeoJson = GeoJson(kind: string, coordinates: seq<real>)

  /** `ref in ['S', 'W']`: only the exact strings "S" and "W" flip the sign. */
  predicate IsNegativeRef(ref: TagValue) {
    ref == Ascii("S") || ref == Ascii("W")
  }

  /**
    The unsigned decimal degrees of a degrees/minutes/seconds triple as the
    conversion computes them: only the numerators of degrees and minutes are
    used, while seconds are divided by their denominator.
   */
  function Magnitude(d: Rational, m: Rational, s: Rational): (dd: real)
    requires s.den != 0
  {
    d.num as real + m.num as real / 60.0 + s.num as real / s.den as real / 60.0 / 60.0
  }

  /** `_dms_to_dd(dms, ref)`: signed decimal degrees, or None for a value of the wrong arity. */
  function DmsToDd(dms: TagValue, ref: TagValue): (r: Outcome<Option<real>>)
    ensures Length(dms) != 3 ==> r == Returns(None)
    ensures r.Returns? && r.value.Some? ==> dms.Ratios? && |dms.ratios| == 3
    ensures r.Raises? <==> Length(dms) == 3 && (!dms.Ratios? || dms.ratios[2].den == 0)
    ensures r.Raises? ==> r.fault == if dms.Ratios? then ZeroDivisionError else AttributeError
  {
    if Length(dms) != 3 then Returns(None)
    // degrees = dms[0].num: strings and integers have no `num`
    else if !dms.Ratios? then Raises(AttributeError)
    else if dms.ratios[2].den == 0 then Raises(ZeroDivisionError)
    else
      var dd := Magnitude(dms.ratios[0], dms.ratios[1], dms.ratios[2]);
      Returns(Some(if IsNegativeRef(ref) then -dd else dd))
  }

  /** A coordinate property: a value only when both the angle tag and its reference tag exist. */
  function Coordinate(exif: Exif, dmsKey: string, refKey: string): (r: Outcome<Option<real>>)
    ensures r != Returns(None) ==> dmsKey in exif && refKey in exif
  {
    if dmsKey in exif && refKey in exif then DmsToDd(exif[dmsKey], exif[refKey])
    else Returns(None)
  }

  function Lat(exif: Exif): (r: Outcome<Option<real>>)
    ensures r != Returns(None) ==> GpsLatitude in exif && GpsLatitudeRef in exif
  {
    Coordinate(exif, GpsLatitude, GpsLatitudeRef)
  }

  function Lng(exif: Exif): (r: Outcome<Option<real>>)
    ensures r != Returns(None) ==> GpsLongitude in exif && GpsLongitudeRef in exif
  {
    Coordinate(exif, GpsLongitude, GpsLongitudeRef)
  }

  /** `x` is another name for the longitude. */
  function X(exif: Exif): (r: Outcome<Option<real>>)
    ensures r == Lng(exif)
    ensures r != Returns(None) ==> GpsLongitude in exif && GpsLongitudeRef in exif
  {
    Lng(exif)
  }

  /** `y` is another name for the latitude. */
  function Y(exif: Exif): (r: Outcome<Option<real>>)
    ensures r == Lat(exif)
    ensures r != Returns(None) ==> GpsLatitude in exif && GpsLatitudeRef in exif
  {
    Lat(exif)
  }

  /** Python truthiness of an optional float: None and 0.0 are both false. */
  predicate IsTruthy(v: Option<real>) {
    v.Some? && v.value != 0.0
  }

  /** The property returned a truthy coordinate (neither raised, nor None, nor 0.0). */
  predicate ReturnsTruthy(o: Outcome<Option<real>>) {
    o.Returns? && IsTruthy(o.value)
  }

  /**
    `bool(self.lat and self.lng)`: the latitude is evaluated first, and the
    longitude only when the latitude is truthy.
   */
  function Ok(exif: Exif): (r: Outcome<bool>)
    ensures r == Returns(true) <==> ReturnsTruthy(Lat(exif)) && ReturnsTruthy(Lng(exif))
  {
    match Lat(exif)
    case Raises(f) => Raises(f)
    case Returns(lat) =>
      if !IsTruthy(lat) then Returns(false)
      else
        match Lng(exif)
        case Raises(f) => Raises(f)
        case Returns(lng) => Returns(IsTruthy(lng))
  }

  function Status(exif: Exif): (r: Outcome<string>)
    ensures r.Returns? ==> r.value in {ExifNotFound, NoGeometry, StatusOk}
  {
    if exif == map[] then Returns(ExifNotFound)
    else
      match Ok(exif)
      case Raises(f) => Raises(f)
      case Returns(ok) => Returns(if ok then StatusOk else NoGeometry)
  }

  function Geometry(exif: Exif): (r: Outcome<Option<GeoJson>>)
    ensures r.Returns? && r.value.Some? ==> |r.value.value.coordinates| == 2
  {
    match Ok(exif)
    case Raises(f) => Raises(f)
    case Returns(ok) =>
      if ok then Returns(Some(GeoJson("POINT", [Lng(exif).value.value, Lat(exif).value.value])))
      else Returns(None)
  }

  function Datum(exif: Exif): (r: TagValue)
    ensures GpsMapDatum in exif ==> r == exif[GpsMapDatum]
    ensures GpsMapDatum !in exif ==> r == Ascii(DefaultDatum)
  {
    if GpsMapDatum in exif then exif[GpsMapDatum] else Ascii(DefaultDatum)
  }

  function Altitude(exif: Exif): (r: Option<TagValue>)
    ensures r.Some? <==> GpsAltitude in exif
    ensures r.Some? ==> r.value == exif[GpsAltitude]
  {
    if GpsAltitude in exif then Some(exif[GpsAltitude]) else None
  }

  function Direction(exif: Exif): (r: Option<TagValue>)
    ensures r.Some? <==> GpsImgDirection in exif
    ensures r.Some? ==> r.value == exif[GpsImgDirection]
  {
    if GpsImgDirection in exif then Some(exif[GpsImgDirection]) else None
  }

  /**
    The date-time text handed to the date parser: the image's DateTime tag
    with its first two ':' turned into '-' ("2016:05:14 10:22:33" becomes
    "2016-05-14 10:22:33"). A tag whose value is not a string has no `replace`.
   */
  function TimestampText(exif: Exif): (r: Outcome<Option<string>>)
    ensures r == Returns(None) <==> ImageDateTime !in exif
    ensures r.Raises? ==> r.fault == AttributeError
  {
    if ImageDateTime !in exif then Returns(None)
    else
      match exif[ImageDateTime]
      case Ascii(s) => Returns(Some(StrReplace.Replace(s, ':', '-', 2)))
      case _ => Raises(AttributeError)
  }

  /**
    `timestamp`, with the date parser as a parameter: it returns a date or
    raises (ValueError for a text it rejects, OverflowError for a date out of
    range), and whatever it raises passes through.
   */
  function Timestamp<D>(exif: Exif, parse: string -> Outcome<D>): (r: Outcome<Option<D>>)
    ensures r == Returns(None) <==> ImageDateTime !in exif
    ensures r.Returns? && r.value.Some? ==>
              TimestampText(exif).Returns? && TimestampText(exif).value.Some? &&
              parse(TimestampText(exif).value.value) == Returns(r.value.value)
    ensures r.Raises? ==>
              (TimestampText(exif).Raises? || parse(TimestampText(exif).value.value) == Raises(r.fault))
  {
    match TimestampText(exif)
    case Raises(f) => Raises(f)
    case Returns(None) => Returns(None)
    case Returns(Some(text)) =>
      match parse(text)
      case Returns(date) => Returns(Some(date))
      case Raises(f) => Raises(f)
  }

  /**
    `satellites`, with the integer parser as a parameter. A missing tag raises
    (attribute lookup on None), an empty value gives None, and `int()` of a
    non-empty list raises TypeError.
   */
  function Satellites(exif: Exif, parseInt: string -> Option<int>): (r: Outcome<Option<int>>)
    ensures r.Raises? && r.fault == AttributeError <==> GpsSatellites !in exif
    ensures r == Returns(None) <==> GpsSatellites in exif && !NonEmpty(exif[GpsSatellites])
  {
    if GpsSatellites !in exif then Raises(AttributeError)
    else if !NonEmpty(exif[GpsSatellites]) then Returns(None)
    else
      match exif[GpsSatellites]
      case Ascii(s) =>
        if parseInt(s).Some? then Returns(Some(parseInt(s).value)) else Raises(ValueError)
      case _ => Raises(TypeError)
  }
}
