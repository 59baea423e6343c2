/** What the computed properties of an image promise, stated over all tag mappings. */
module GpsImageProperties {
  import opened Outcomes
  import opened ExifTags
  import opened GpsImage
  import StrReplace

  /** The outcome with the returned coordinate negated; None and faults stay as they are. */
  function Negated(o: Outcome<Option<real>>): (r: Outcome<Option<real>>) {
    match o
    case Returns(Some(x)) => Returns(Some(-x))
    case _ => o
  }

  // ---------------------------------------------------------------------------
  // Degrees/minutes/seconds to decimal degrees

  /**
    For a reference other than "S"/"W" the result is the numerator of the
    degrees plus a sixtieth of the numerator of the minutes plus the exact
    seconds over 3600; equivalently, the arc-seconds of the angle over 3600.
   */
  lemma DmsToDdFormula(d: Rational, m: Rational, s: Rational, ref: TagValue)
    requires s.den != 0 && !IsNegativeRef(ref)
    ensures DmsToDd(Ratios([d, m, s]), ref) ==
              Returns(Some(d.num as real + m.num as real / 60.0 + (s.num as real / s.den as real) / 3600.0))
    ensures DmsToDd(Ratios([d, m, s]), ref) ==
              Returns(Some(((d.num * 3600 + m.num * 60) as real + s.num as real / s.den as real) / 3600.0))
  {
  }

  /** "S" and "W" give exactly the negation of what any other reference gives, faults and None included. */
  lemma DmsToDdSignRule(dms: TagValue, southOrWest: TagValue, other: TagValue)
    requires IsNegativeRef(southOrWest) && !IsNegativeRef(other)
    ensures DmsToDd(dms, southOrWest) == Negated(DmsToDd(dms, other))
  {
  }

  /** Every reference other than "S"/"W" ("N", "E", lower case, garbage) gives the same, unnegated result. */
  lemma DmsToDdOtherRefsAgree(dms: TagValue, ref1: TagValue, ref2: TagValue)
    requires !IsNegativeRef(ref1) && !IsNegativeRef(ref2)
    ensures DmsToDd(dms, ref1) == DmsToDd(dms, ref2) == DmsToDd(dms, Ascii("N"))
  {
  }

  /** The denominators of the degrees and the minutes are ignored. */
  lemma DmsToDdIgnoresDenominators(d: Rational, m: Rational, s: Rational, dDen: int, mDen: int, ref: TagValue)
    ensures DmsToDd(Ratios([Rational(d.num, dDen), Rational(m.num, mDen), s]), ref) ==
            DmsToDd(Ratios([d, m, s]), ref)
  {
  }

  lemma DivCancel(n: real, q: real, k: real)
    requires q != 0.0 && k != 0.0
    ensures (n * k) / (q * k) == n / q
  {
    var a := n / q;
    assert a * q == n;
    assert a * (q * k) == (a * q) * k;
  }

  /** The seconds are used as an exact ratio: scaling numerator and denominator changes nothing. */
  lemma DmsToDdSecondsAreRatio(d: Rational, m: Rational, num: int, den: int, k: int, ref: TagValue)
    requires den != 0 && k != 0
    ensures DmsToDd(Ratios([d, m, Rational(num * k, den * k)]), ref) ==
            DmsToDd(Ratios([d, m, Rational(num, den)]), ref)
  {
    assert (num * k) as real == num as real * k as real;
    assert (den * k) as real == den as real * k as real;
    DivCancel(num as real, den as real, k as real);
    assert den * k != 0;
  }

  lemma PositiveFactor(a: real, q: real)
    requires q > 0.0 && a * q > 0.0
    ensures a > 0.0
  {
  }

  lemma NonNegativeFactor(a: real, q: real)
    requires q > 0.0 && a * q >= 0.0
    ensures a >= 0.0
  {
  }

  lemma QuotientBelow(n: real, q: real)
    requires q > 0.0 && 0.0 <= n < 60.0 * q
    ensures 0.0 <= n / q < 60.0
  {
    var x := n / q;
    assert x * q == n;
    assert (60.0 - x) * q == 60.0 * q - n;
    PositiveFactor(60.0 - x, q);
    NonNegativeFactor(x, q);
  }

  lemma SecondsBelowAMinute(s: Rational)
    requires s.den > 0 && 0 <= s.num < 60 * s.den
    ensures 0.0 <= s.num as real / s.den as real < 60.0
  {
    assert s.num as real < (60 * s.den) as real == 60.0 * s.den as real;
    QuotientBelow(s.num as real, s.den as real);
  }

  /**
    For an angle in normal form (minutes below 60, non-negative seconds below
    60) the result lies in [deg, deg + 1) before the sign is applied.
   */
  lemma DmsToDdRange(d: Rational, m: Rational, s: Rational, ref: TagValue)
    requires 0 <= m.num < 60
    requires s.den > 0 && 0 <= s.num < 60 * s.den
    ensures DmsToDd(Ratios([d, m, s]), ref).Returns?
    ensures
      var v := DmsToDd(Ratios([d, m, s]), ref).value.value;
      if IsNegativeRef(ref) then -(d.num + 1) as real < v <= -d.num as real
      else d.num as real <= v < (d.num + 1) as real
  {
    SecondsBelowAMinute(s);
  }

  /** 40° 26' 46" N is about 40.44611 degrees. */
  lemma DmsToDdNorthExample()
    ensures DmsToDd(Ratios([Rational(40, 1), Rational(26, 1), Rational(46, 1)]), Ascii("N")) ==
              Returns(Some(40.0 + 26.0 / 60.0 + 46.0 / 3600.0))
    ensures 40.44611 < 40.0 + 26.0 / 60.0 + 46.0 / 3600.0 < 40.44612
  {
  }

  /** 79° 58' 56" W is about -79.98222 degrees. */
  lemma DmsToDdWestExample()
    ensures DmsToDd(Ratios([Rational(79, 1), Rational(58, 1), Rational(56, 1)]), Ascii("W")) ==
              Returns(Some(-(79.0 + 58.0 / 60.0 + 56.0 / 3600.0)))
    ensures -79.98223 < -(79.0 + 58.0 / 60.0 + 56.0 / 3600.0) < -79.98222
  {
  }

  /** A degrees value written as 4044/100 reads as 4044 degrees, not 40.44. */
  lemma DmsToDdFractionalDegreesExample()
    ensures DmsToDd(Ratios([Rational(4044, 100), Rational(0, 1), Rational(0, 1)]), Ascii("N")) ==
              Returns(Some(4044.0))
  {
  }

  // ---------------------------------------------------------------------------
  // Coordinates

  /** The latitude is None when either latitude tag is missing, and otherwise their conversion. */
  lemma LatLookup(exif: Exif)
    ensures GpsLatitude !in exif || GpsLatitudeRef !in exif ==> Lat(exif) == Returns(None)
    ensures GpsLatitude in exif && GpsLatitudeRef in exif ==>
              Lat(exif) == DmsToDd(exif[GpsLatitude], exif[GpsLatitudeRef])
  {
  }

  /** The longitude is None when either longitude tag is missing, and otherwise their conversion. */
  lemma LngLookup(exif: Exif)
    ensures GpsLongitude !in exif || GpsLongitudeRef !in exif ==> Lng(exif) == Returns(None)
    ensures GpsLongitude in exif && GpsLongitudeRef in exif ==>
              Lng(exif) == DmsToDd(exif[GpsLongitude], exif[GpsLongitudeRef])
  {
  }

  /** The latitude depends on its two tags only. */
  lemma LatIsLocal(e1: Exif, e2: Exif)
    requires Agree(e1, e2, GpsLatitude) && Agree(e1, e2, GpsLatitudeRef)
    ensures Lat(e1) == Lat(e2)
  {
  }

  /** The longitude depends on its two tags only. */
  lemma LngIsLocal(e1: Exif, e2: Exif)
    requires Agree(e1, e2, GpsLongitude) && Agree(e1, e2, GpsLongitudeRef)
    ensures Lng(e1) == Lng(e2)
  {
  }

  /** `x` and `y` are the longitude and latitude, in that order. */
  lemma AxesAreCoordinates(exif: Exif)
    ensures X(exif) == Lng(exif) && Y(exif) == Lat(exif)
  {
  }

  /** A coordinate tag as the EXIF parser produces it: a list of rationals with nonzero denominators. */
  predicate WellFormedAngle(exif: Exif, key: string) {
    key in exif ==>
      exif[key].Ratios? && forall i :: 0 <= i < |exif[key].ratios| ==> exif[key].ratios[i].den != 0
  }

  predicate WellFormedCoordinates(exif: Exif) {
    WellFormedAngle(exif, GpsLatitude) && WellFormedAngle(exif, GpsLongitude)
  }

  /** With well-formed coordinate tags no geolocation property raises. */
  lemma WellFormedNeverRaises(exif: Exif)
    requires WellFormedCoordinates(exif)
    ensures Lat(exif).Returns? && Lng(exif).Returns?
    ensures Ok(exif).Returns? && Status(exif).Returns? && Geometry(exif).Returns?
  {
  }

  // ---------------------------------------------------------------------------
  // Validity, status and geometry

  /** `ok` is false whenever a coordinate is None or exactly 0.0, unless evaluating them raised first. */
  lemma OkFalseCases(exif: Exif)
    ensures Lat(exif) == Returns(None) || Lat(exif) == Returns(Some(0.0)) ==> Ok(exif) == Returns(false)
    ensures ReturnsTruthy(Lat(exif)) && (Lng(exif) == Returns(None) || Lng(exif) == Returns(Some(0.0))) ==>
              Ok(exif) == Returns(false)
  {
  }

  /** `ok` raises exactly when the latitude raises, or the latitude is truthy and the longitude raises. */
  lemma OkRaises(exif: Exif)
    ensures Ok(exif).Raises? <==>
              Lat(exif).Raises? || (ReturnsTruthy(Lat(exif)) && Lng(exif).Raises?)
    ensures Lat(exif).Raises? ==> Ok(exif) == Raises(Lat(exif).fault)
  {
  }

  /** An equator sample: a latitude of 0° 0' 0" N with a real longitude is not geolocated. */
  lemma EquatorIsNotOk()
    ensures
      var exif := map[
        GpsLatitude := Ratios([Rational(0, 1), Rational(0, 1), Rational(0, 1)]),
        GpsLatitudeRef := Ascii("N"),
        GpsLongitude := Ratios([Rational(10, 1), Rational(0, 1), Rational(0, 1)]),
        GpsLongitudeRef := Ascii("E")];
      Lat(exif) == Returns(Some(0.0)) && Lng(exif) == Returns(Some(10.0)) &&
      Ok(exif) == Returns(false) && Status(exif) == Returns(NoGeometry) && Geometry(exif) == Returns(None)
  {
  }

  /** The three statuses, each with its exact condition. */
  lemma StatusCases(exif: Exif)
    ensures Status(exif) == Returns(ExifNotFound) <==> exif == map[]
    ensures Status(exif) == Returns(NoGeometry) <==> exif != map[] && Ok(exif) == Returns(false)
    ensures Status(exif) == Returns(StatusOk) <==> Ok(exif) == Returns(true)
    ensures Status(exif).Raises? <==> exif != map[] && Ok(exif).Raises?
  {
    if Ok(exif) == Returns(true) {
      assert GpsLatitude in exif;
    }
  }

  /** The geometry exists when `ok` holds, is None when it does not, and raises what `ok` raises. */
  lemma GeometryFollowsOk(exif: Exif)
    ensures (Geometry(exif).Returns? && Geometry(exif).value.Some?) <==> Ok(exif) == Returns(true)
    ensures Geometry(exif) == Returns(None) <==> Ok(exif) == Returns(false)
    ensures Geometry(exif).Raises? ==> Ok(exif) == Raises(Geometry(exif).fault)
  {
  }

  /** A present geometry is a "POINT" whose coordinates are [longitude, latitude], i.e. [x, y]. */
  lemma GeometryIsLngLat(exif: Exif)
    requires Geometry(exif).Returns? && Geometry(exif).value.Some?
    ensures
      var g := Geometry(exif).value.value;
      g.kind == "POINT" && |g.coordinates| == 2 &&
      Lng(exif) == X(exif) == Returns(Some(g.coordinates[0])) &&
      Lat(exif) == Y(exif) == Returns(Some(g.coordinates[1])) &&
      g.coordinates[0] != 0.0 && g.coordinates[1] != 0.0
  {
  }

  /** Status "OK" and a present geometry go together. */
  lemma StatusOkIffGeometry(exif: Exif)
    ensures Status(exif) == Returns(StatusOk) <==> Geometry(exif).Returns? && Geometry(exif).value.Some?
  {
    StatusCases(exif);
    GeometryFollowsOk(exif);
  }

  /** An empty tag mapping: status "no EXIF", no geometry. */
  lemma EmptyExif()
    ensures Status(map[]) == Returns(ExifNotFound) && Geometry(map[]) == Returns(None)
    ensures Datum(map[]) == Ascii(DefaultDatum)
  {
  }

  // ---------------------------------------------------------------------------
  // Field derivations

  /** The datum, altitude, direction, timestamp and satellite count each depend on their own tag only. */
  lemma FieldsAreLocal<D>(e1: Exif, e2: Exif, parse: string -> Outcome<D>, parseInt: string -> Option<int>)
    requires forall k | k in {GpsMapDatum, GpsAltitude, GpsImgDirection, ImageDateTime, GpsSatellites} ::
               Agree(e1, e2, k)
    ensures Datum(e1) == Datum(e2)
    ensures Altitude(e1) == Altitude(e2) && Direction(e1) == Direction(e2)
    ensures Timestamp(e1, parse) == Timestamp(e2, parse)
    ensures Satellites(e1, parseInt) == Satellites(e2, parseInt)
  {
    assert Agree(e1, e2, GpsMapDatum);
    assert Agree(e1, e2, GpsAltitude);
    assert Agree(e1, e2, GpsImgDirection);
    assert Agree(e1, e2, ImageDateTime);
    assert Agree(e1, e2, GpsSatellites);
  }

  /**
    A string DateTime tag is handed to the date parser with the same length,
    its first two ':' turned into '-', and every other character unchanged.
   */
  lemma TimestampTextOfString(exif: Exif)
    requires ImageDateTime in exif && exif[ImageDateTime].Ascii?
    ensures
      var s := exif[ImageDateTime].text;
      TimestampText(exif).Returns? && TimestampText(exif).value.Some? &&
      var t := TimestampText(exif).value.value;
      && |t| == |s|
      && (forall i | 0 <= i < |s| ::
            t[i] == if s[i] == ':' && StrReplace.Occurrences(s[..i], ':') < 2 then '-' else s[i])
      && StrReplace.Occurrences(t, ':') == StrReplace.Occurrences(s, ':') - StrReplace.Min(2, StrReplace.Occurrences(s, ':'))
  {
    var s := exif[ImageDateTime].text;
    var t := StrReplace.Replace(s, ':', '-', 2);
    forall i | 0 <= i < |s|
      ensures t[i] == if s[i] == ':' && StrReplace.Occurrences(s[..i], ':') < 2 then '-' else s[i]
    {
      StrReplace.ReplaceAt(s, ':', '-', 2, i);
    }
    StrReplace.ReplaceOccurrences(s, ':', '-', 2);
  }

  /** The timestamp is the parser's reading of that text, and raises whatever the parser raises. */
  lemma TimestampParses<D>(exif: Exif, parse: string -> Outcome<D>)
    requires ImageDateTime in exif && exif[ImageDateTime].Ascii?
    ensures
      var text := StrReplace.Replace(exif[ImageDateTime].text, ':', '-', 2);
      Timestamp(exif, parse) ==
        match parse(text)
        case Returns(date) => Returns(Some(date))
        case Raises(f) => Raises(f)
  {
  }

  /** A non-string DateTime tag raises AttributeError. */
  lemma TimestampOfNonString<D>(exif: Exif, parse: string -> Outcome<D>)
    requires ImageDateTime in exif && !exif[ImageDateTime].Ascii?
    ensures Timestamp(exif, parse) == Raises(AttributeError)
  {
  }

  /** A non-empty satellite string is the integer parser's reading of it; a non-empty list raises TypeError. */
  lemma SatellitesOfValue(exif: Exif, parseInt: string -> Option<int>)
    requires GpsSatellites in exif && NonEmpty(exif[GpsSatellites])
    ensures exif[GpsSatellites].Ascii? ==>
              var s := exif[GpsSatellites].text;
              Satellites(exif, parseInt) == if parseInt(s).Some? then Returns(Some(parseInt(s).value)) else Raises(ValueError)
    ensures !exif[GpsSatellites].Ascii? ==> Satellites(exif, parseInt) == Raises(TypeError)
  {
  }
}
