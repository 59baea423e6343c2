# gpsimage: computed geolocation attributes, in Dafny

This project models the computed-attribute layer of the `GPSImage` class of
`gpsimage`. An image object holds the tag mapping produced by the EXIF parser.
Every attribute it exposes (latitude, longitude, `ok`, status, geometry, datum,
altitude, direction, timestamp, satellite count) is a read-only computation
over that mapping. The model is therefore a set of functions over
`Exif = map<string, TagValue>` with lemmas about them:

- `outcomes.dfy` (`Outcomes`): a property either returns a value or raises a
  Python exception (`Outcome`). A property that returns `None` returns
  `Returns(None)`.
- `exif_tags.dfy` (`ExifTags`): the parser's output. This is a tag's `values`
  (a string, a list of rationals `Rational(num, den)` or a list of integers),
  the tag names, Python's `len` and truthiness of a value, and
  `Agree` (two mappings hold the same entry for a key). A tag object is
  always truthy, so the source's `if tag:` after `exif.get(...)` asks only
  whether the key is present.
- `str_replace.dfy` (`StrReplace`): `str.replace(old, new, count)` for
  single characters, as used by `timestamp`.
- `gps_image.dfy` (`GpsImage`): the properties themselves.
- `gps_image_properties.dfy` (`GpsImageProperties`): the lemmas.

Arithmetic is exact (`real`), not IEEE floating point. Faults are kept as the
code raises them:
- a 3-element angle that is not a list of rationals has no `.num` (AttributeError);
- a seconds denominator of 0 raises ZeroDivisionError;
- looking up a missing satellites tag raises AttributeError;
- `int()` of a non-empty list raises TypeError;
- a string rejected by the integer parser raises ValueError;
- whatever the date parser raises (ValueError for a text it cannot read,
  OverflowError for a date out of range) passes through `timestamp`.

The integer parser and the date parser are external. They are parameters of
`Satellites` (`string -> Option<int>`) and `Timestamp` (`string -> Outcome<D>`).

Points where the code's behaviour may surprise:
- the status strings are `'ERROR - Exif not found'`, `'ERROR - No Geometry'` and `'OK'`;
- latitude and longitude are independent, so one can be present without the other;
- `datum` returns the tag's raw value of any kind, not necessarily a string;
- a value of exactly 0.0 for either coordinate makes `ok` false, the same as a missing
  coordinate. This quirk is kept and stated by `OkFalseCases` and `EquatorIsNotOk`.

## Model

| member | source | states |
|---|---|---|
| `GpsImage.DmsToDd` | gpsimage/base.py:35-45 | an angle whose length is not 3 gives None. For EXIF's 32-bit rationals, the conversion raises exactly when a length-3 value is not a list of rationals (AttributeError) or its seconds denominator is 0 (ZeroDivisionError). A value is produced only from three rationals |
| `GpsImageProperties.DmsToDdFormula` | gpsimage/base.py:37-40 | for a reference other than S/W the result is deg.num + min.num/60 + (sec.num/sec.den)/3600, which is also the angle's arc-seconds over 3600 |
| `GpsImageProperties.DmsToDdSignRule` | gpsimage/base.py:42-44 | with "S" or "W" the outcome is exactly the negation of the outcome with any other reference, for every angle value (None and faults unchanged) |
| `GpsImageProperties.DmsToDdOtherRefsAgree` | gpsimage/base.py:43-44 | every reference other than "S"/"W", garbage included, gives the same unnegated result as "N" |
| `GpsImageProperties.DmsToDdIgnoresDenominators` | gpsimage/base.py:37-38 | changing the denominators of degrees and minutes never changes the result |
| `GpsImageProperties.DmsToDdSecondsAreRatio` | gpsimage/base.py:39 | the seconds are used as an exact ratio: scaling their numerator and denominator by any nonzero k changes nothing |
| `GpsImageProperties.DmsToDdRange` | gpsimage/base.py:37-45 | for minutes in [0, 60) and seconds in [0, 60) the conversion does not raise. The result lies in [deg, deg+1), or in (-deg-1, -deg] for S/W |
| `GpsImageProperties.DmsToDdNorthExample` | gpsimage/base.py:35-45 | 40° 26' 46" N converts to 40 + 26/60 + 46/3600, about 40.44611 |
| `GpsImageProperties.DmsToDdWestExample` | gpsimage/base.py:35-45 | 79° 58' 56" W converts to -(79 + 58/60 + 56/3600), about -79.98222 |
| `GpsImageProperties.DmsToDdFractionalDegreesExample` | gpsimage/base.py:37 | degrees stored as 4044/100 read as 4044 degrees, because only the numerator is used |
| `GpsImage.Coordinate` | gpsimage/base.py:128-133 | a coordinate property yields anything but None only when both its angle tag and its reference tag are present |
| `GpsImage.Lat` | gpsimage/base.py:139-144 | the latitude is None unless both latitude tags are present |
| `GpsImage.Lng` | gpsimage/base.py:128-133 | the longitude is None unless both longitude tags are present |
| `GpsImage.X` | gpsimage/base.py:135-137 | `x` is the longitude, so it is None unless both longitude tags are present |
| `GpsImage.Y` | gpsimage/base.py:146-148 | `y` is the latitude, so it is None unless both latitude tags are present |
| `GpsImageProperties.LatLookup` | gpsimage/base.py:139-144 | the latitude is None when either latitude tag is missing. Otherwise it is the conversion of the two tags' values |
| `GpsImageProperties.LngLookup` | gpsimage/base.py:128-133 | the longitude is None when either longitude tag is missing. Otherwise it is the conversion of the two tags' values |
| `GpsImageProperties.LatIsLocal` | gpsimage/base.py:139-144 | two mappings that agree on the two latitude tags give the same latitude, whatever else they hold |
| `GpsImageProperties.LngIsLocal` | gpsimage/base.py:128-133 | two mappings that agree on the two longitude tags give the same longitude |
| `GpsImageProperties.AxesAreCoordinates` | gpsimage/base.py:135-148 | `x` is the longitude and `y` the latitude, for every mapping |
| `GpsImageProperties.WellFormedNeverRaises` | gpsimage/base.py:36-39 | when both coordinate tags (if present) are lists of rationals with nonzero denominators, none of lat, lng, ok, status and geometry raises |
| `GpsImage.Ok` | gpsimage/base.py:102-107 | `ok` is true iff both the latitude and the longitude return a value that is present and nonzero |
| `GpsImageProperties.OkFalseCases` | gpsimage/base.py:104-107 | `ok` is false when the latitude is None or 0.0. It is also false when the latitude is truthy and the longitude is None or 0.0 |
| `GpsImageProperties.OkRaises` | gpsimage/base.py:104 | `ok` raises iff the latitude raises, or the latitude is truthy and the longitude raises. The longitude is not evaluated after a falsy latitude |
| `GpsImageProperties.EquatorIsNotOk` | gpsimage/base.py:104-107 | a point at latitude 0° N, longitude 10° E is not geolocated: `ok` false, status "No Geometry", no geometry |
| `GpsImage.Status` | gpsimage/base.py:74-81 | a status that is returned is one of the three status strings |
| `GpsImageProperties.StatusCases` | gpsimage/base.py:76-81 | "Exif not found" iff the mapping is empty. "No Geometry" iff it is non-empty and `ok` is false. "OK" iff `ok` is true. Status raises iff the mapping is non-empty and `ok` raises |
| `GpsImageProperties.StatusOkIffGeometry` | gpsimage/base.py:184-187 | status "OK" holds exactly when a geometry is present |
| `GpsImageProperties.EmptyExif` | gpsimage/base.py:76-77 | an empty mapping has status "Exif not found", no geometry and datum WGS-84 |
| `GpsImage.Geometry` | gpsimage/base.py:184-187 | a geometry that is present has exactly two coordinates |
| `GpsImageProperties.GeometryFollowsOk` | gpsimage/base.py:186-187 | the geometry is present iff `ok` is true and None iff `ok` is false. It raises what `ok` raises |
| `GpsImageProperties.GeometryIsLngLat` | gpsimage/base.py:187 | a present geometry has type "POINT". Its coordinates are [longitude, latitude] = [x, y], both nonzero |
| `GpsImage.Datum` | gpsimage/base.py:120-126 | the datum is the map-datum tag's value when the tag is present, else "WGS-84" |
| `GpsImage.Altitude` | gpsimage/base.py:150-154 | the altitude is present iff its tag is, and is then the tag's raw value |
| `GpsImage.Direction` | gpsimage/base.py:156-160 | the direction is present iff its tag is, and is then the tag's raw value |
| `GpsImageProperties.FieldsAreLocal` | gpsimage/base.py:120-193 | datum, altitude, direction, timestamp and satellites each depend only on their own tag |
| `GpsImage.TimestampText` | gpsimage/base.py:162-167 | the text for the date parser is None iff the DateTime tag is missing. The only fault is AttributeError, for a non-string value |
| `GpsImage.Timestamp` | gpsimage/base.py:162-168 | the timestamp is None iff the DateTime tag is missing. A returned date is the date parser's result on the replaced text. A fault is either the attribute fault of a non-string tag or exactly what the parser raised |
| `GpsImageProperties.TimestampTextOfString` | gpsimage/base.py:167 | a string tag is passed on with its length kept and only the first two ':' turned into '-'. Every other character is unchanged, so the count of ':' drops by min(2, count) |
| `GpsImageProperties.TimestampParses` | gpsimage/base.py:167-168 | the timestamp is the date parser's reading of the replaced text, and it raises whatever the parser raises |
| `GpsImageProperties.TimestampOfNonString` | gpsimage/base.py:167 | a DateTime tag whose value is not a string raises AttributeError |
| `GpsImage.Satellites` | gpsimage/base.py:189-193 | a missing satellites tag raises AttributeError, and that is the only way to get AttributeError. The result is None iff the tag is present with an empty value |
| `GpsImageProperties.SatellitesOfValue` | gpsimage/base.py:191-193 | a non-empty string is the integer parser's reading of it, and a rejected string raises ValueError. A non-empty list raises TypeError |
| `StrReplace.Replace` | gpsimage/base.py:167 | replacing characters keeps the length of the string |
| `StrReplace.ReplaceAt` | gpsimage/base.py:167 | position i of the result is `to` when s[i] is `from` with fewer than `count` earlier occurrences of `from`, and s[i] otherwise |
| `StrReplace.ReplaceOccurrences` | gpsimage/base.py:167 | with `from` != `to`, exactly min(count, n) of the n occurrences of `from` become `to` |

## Left out

- Opening the image file, path handling and the EXIF parser call in the constructor (gpsimage/base.py:14-23, 31-32). These are I/O and a foreign library. The parsed tag mapping is the model's input.
- The date parser (gpsimage/base.py:168) and the integer parser (gpsimage/base.py:193). They are external; each is a parameter, an arbitrary partial function from strings.
- `debug` and `_pretty` (gpsimage/base.py:47-72). They only print, and they refer to names the file does not define.
- `__repr__` (gpsimage/base.py:25-29). It only formats text.
- `json` (gpsimage/base.py:196-203). It gathers the other properties by reflection over the object's attribute names, which has no counterpart here.
- The `dpi`, `make`/`model` and `width`/`height`/`size` blocks (gpsimage/base.py:83-100, 109-118, 169-182). They are string literals, that is, dead code.
- `GpsImage.DmsToDd`: rationals are taken to be EXIF's 32-bit values. The model's integers are unbounded, so it does not raise the OverflowError that Python's float conversion raises for magnitudes above about 1.8e308. The EXIF parser never produces such values.
- Floating-point rounding. The conversion is computed in exact real arithmetic, so the results are the mathematically exact values of the formula.
- Tag values other than strings, rational lists and integer lists, for example raw bytes, are outside `TagValue` and not modelled. They would behave differently from all three: `int()` parses a bytes value, and `bytes.replace` with string arguments raises TypeError.
