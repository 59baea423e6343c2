/**
  The tag mapping that the EXIF parser hands to an image object. Each entry
  maps a namespaced tag name ("GPS GPSLatitude") to the tag's `values`: a
  string for ASCII tags, a list of rationals for RATIONAL tags, a list of
  integers for every other numeric or byte tag. A tag object itself is always
  truthy, so `if tag:` on a looked-up tag only asks whether the key is present.
 */
module ExifTags {

  /** An EXIF rational as the parser stores it; the denominator is not checked. */
  datatype Rational = Rational(num: int, den: int)

  datatype TagValue =
    | Ascii(text: string)
    | Ratios(ratios: seq<Rational>)
    | Numbers(numbers: seq<int>)

  type Exif = map<string, TagValue>

  const GpsLatitude := "GPS GPSLatitude"
  const GpsLatitudeRef := "GPS GPSLatitudeRef"
  const GpsLongitude := "GPS GPSLongitude"
  const GpsLongitudeRef := "GPS GPSLongitudeRef"
  const GpsMapDatum := "GPS GPSMapDatum"
  const GpsAltitude := "GPS GPSAltitude"
  const GpsImgDirection := "GPS GPSImgDirection"
  const GpsSatellites := "GPS GPSSatellites"
  const ImageDateTime := "Image DateTime"

  /** Python's `len(values)`. */
  function Length(v: TagValue): (n: nat) {
    match v
    case Ascii(s) => |s|
    case Ratios(rs) => |rs|
    case Numbers(ns) => |ns|
  }

  /** Python's `bool(values)`: a string or list is truthy when it is not empty. */
  predicate NonEmpty(v: TagValue) {
    match v
    case Ascii(s) => s != []
    case Ratios(rs) => rs != []
    case Numbers(ns) => ns != []
  }

  /** Two tag mappings hold the same entry (or no entry) for `key`. */
  predicate Agree(e1: Exif, e2: Exif, key: string) {
    (key in e1 <==> key in e2) && (key in e1 ==> e1[key] == e2[key])
  }
}
