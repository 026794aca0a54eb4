/**
 * The coordinate and bounding-box helpers of the map view: the range test,
 * the padded and clamped bounding box of a record set, its centre, and the
 * hemisphere letters of a coordinate label.
 */
module MapUtils {
  import opened Wrappers
  import opened Types
  import opened Lists

  const LatitudeMax: real := 90.0
  const LatitudeMin: real := -90.0
  const LongitudeMax: real := 180.0
  const LongitudeMin: real := -180.0
  const BoundsPaddingFactor: real := 0.1
  const CenterAverageDivisor: real := 2.0

  const CardinalNorth: char := 'N'
  const CardinalSouth: char := 'S'
  const CardinalEast: char := 'E'
  const CardinalWest: char := 'W'

  function Max(a: real, b: real): real { if a >= b then a else b }
  function Min(a: real, b: real): real { if a <= b then a else b }

  /** `isValidCoordinate`: both numeric (`Some`) and inside the inclusive ranges; zero is accepted. */
  predicate IsValidCoordinate(lat: Option<real>, lng: Option<real>) {
    && lat.Some? && lng.Some?
    && LatitudeMin <= lat.value <= LatitudeMax
    && LongitudeMin <= lng.value <= LongitudeMax
  }

  /** `validateOrganizationCoordinates`: the record's own coordinates pass `isValidCoordinate`. */
  predicate ValidateOrganizationCoordinates(org: Organization) {
    IsValidCoordinate(Some(org.siteLatitude), Some(org.siteLongitude))
  }

  // ---------------------------------------------------------------------
  // calculateBounds
  // ---------------------------------------------------------------------

  /** The initial accumulator of the `reduce`: every side at the opposite end of its range. */
  const InitialBounds := MapBounds(LatitudeMin, LatitudeMax, LongitudeMin, LongitudeMax)

  /** The `reduce` callback: widen the box to take in one more record. */
  function Widen(acc: MapBounds, org: Organization): MapBounds {
    MapBounds(
      Max(acc.north, org.siteLatitude),
      Min(acc.south, org.siteLatitude),
      Max(acc.east, org.siteLongitude),
      Min(acc.west, org.siteLongitude))
  }

  /** `orgs.reduce(Widen, InitialBounds)`, a left fold: the last record is folded in last. */
  function Envelope(orgs: seq<Organization>): MapBounds {
    if orgs == [] then InitialBounds else Widen(Envelope(orgs[..|orgs| - 1]), orgs[|orgs| - 1])
  }

  /** The box grown by a tenth of its span on each axis, clamped to the legal ranges. */
  function Pad(box: MapBounds): MapBounds {
    var latPadding := (box.north - box.south) * BoundsPaddingFactor;
    var lngPadding := (box.east - box.west) * BoundsPaddingFactor;
    MapBounds(
      Min(LatitudeMax, box.north + latPadding),
      Max(LatitudeMin, box.south - latPadding),
      Min(LongitudeMax, box.east + lngPadding),
      Max(LongitudeMin, box.west - lngPadding))
  }

  /** `calculateBounds`: `None` (the source's `null`) when no record has valid coordinates. */
  function CalculateBounds(orgs: seq<Organization>): Option<MapBounds> {
    var validOrgs := Filter(orgs, ValidateOrganizationCoordinates);
    if validOrgs == [] then None else Some(Pad(Envelope(validOrgs)))
  }

  // Reference extremes, defined independently of the fold (from the front).

  /** The largest latitude of a non-empty record set. */
  function MaxLatitude(orgs: seq<Organization>): (m: real)
    requires orgs != []
    ensures exists i :: 0 <= i < |orgs| && m == orgs[i].siteLatitude
    ensures forall i :: 0 <= i < |orgs| ==> orgs[i].siteLatitude <= m
  {
    if |orgs| == 1 then orgs[0].siteLatitude
    else
      var rest := MaxLatitude(orgs[1..]);
      assert forall i :: 1 <= i < |orgs| ==> orgs[i] == orgs[1..][i - 1];
      Max(orgs[0].siteLatitude, rest)
  }

  /** The smallest latitude of a non-empty record set. */
  function MinLatitude(orgs: seq<Organization>): (m: real)
    requires orgs != []
    ensures exists i :: 0 <= i < |orgs| && m == orgs[i].siteLatitude
    ensures forall i :: 0 <= i < |orgs| ==> m <= orgs[i].siteLatitude
  {
    if |orgs| == 1 then orgs[0].siteLatitude
    else
      var rest := MinLatitude(orgs[1..]);
      assert forall i :: 1 <= i < |orgs| ==> orgs[i] == orgs[1..][i - 1];
      Min(orgs[0].siteLatitude, rest)
  }

  /** The largest longitude of a non-empty record set. */
  function MaxLongitude(orgs: seq<Organization>): (m: real)
    requires orgs != []
    ensures exists i :: 0 <= i < |orgs| && m == orgs[i].siteLongitude
    ensures forall i :: 0 <= i < |orgs| ==> orgs[i].siteLongitude <= m
  {
    if |orgs| == 1 then orgs[0].siteLongitude
    else
      var rest := MaxLongitude(orgs[1..]);
      assert forall i :: 1 <= i < |orgs| ==> orgs[i] == orgs[1..][i - 1];
      Max(orgs[0].siteLongitude, rest)
  }

  /** The smallest longitude of a non-empty record set. */
  function MinLongitude(orgs: seq<Organization>): (m: real)
    requires orgs != []
    ensures exists i :: 0 <= i < |orgs| && m == orgs[i].siteLongitude
    ensures forall i :: 0 <= i < |orgs| ==> m <= orgs[i].siteLongitude
  {
    if |orgs| == 1 then orgs[0].siteLongitude
    else
      var rest := MinLongitude(orgs[1..]);
      assert forall i :: 1 <= i < |orgs| ==> orgs[i] == orgs[1..][i - 1];
      Min(orgs[0].siteLongitude, rest)
  }

  predicate AllValid(orgs: seq<Organization>) {
    forall i :: 0 <= i < |orgs| ==> ValidateOrganizationCoordinates(orgs[i])
  }

  /**
   * Over records inside the legal ranges the fold computes the exact
   * extremes: north and south are the largest and smallest latitude, east
   * and west the largest and smallest longitude (the initial accumulator
   * never wins).
   */
  lemma EnvelopeIsExtremes(orgs: seq<Organization>)
    requires orgs != [] && AllValid(orgs)
    ensures Envelope(orgs) == MapBounds(MaxLatitude(orgs), MinLatitude(orgs), MaxLongitude(orgs), MinLongitude(orgs))
  {
    EnvelopeBounds(orgs);
  }

  /** Each side of the fold over valid records is attained by some record and bounds all of them. */
  lemma EnvelopeBounds(orgs: seq<Organization>)
    requires orgs != [] && AllValid(orgs)
    ensures var e := Envelope(orgs);
      && (exists i :: 0 <= i < |orgs| && e.north == orgs[i].siteLatitude)
      && (exists i :: 0 <= i < |orgs| && e.south == orgs[i].siteLatitude)
      && (exists i :: 0 <= i < |orgs| && e.east == orgs[i].siteLongitude)
      && (exists i :: 0 <= i < |orgs| && e.west == orgs[i].siteLongitude)
    ensures var e := Envelope(orgs);
      forall i :: 0 <= i < |orgs| ==>
        e.south <= orgs[i].siteLatitude <= e.north && e.west <= orgs[i].siteLongitude <= e.east
  {
    EnvelopeAttained(orgs);
    EnvelopeContains(orgs);
  }

  /** The fold of one more record: the box so far widened by it. */
  lemma EnvelopeSnoc(orgs: seq<Organization>)
    requires orgs != []
    ensures Envelope(orgs) == Widen(Envelope(orgs[..|orgs| - 1]), orgs[|orgs| - 1])
  {
  }

  /** Each side of the fold over valid records is the coordinate of some record. */
  lemma {:induction false} EnvelopeAttained(orgs: seq<Organization>)
    requires orgs != [] && AllValid(orgs)
    ensures var e := Envelope(orgs);
      && (exists i :: 0 <= i < |orgs| && e.north == orgs[i].siteLatitude)
      && (exists i :: 0 <= i < |orgs| && e.south == orgs[i].siteLatitude)
      && (exists i :: 0 <= i < |orgs| && e.east == orgs[i].siteLongitude)
      && (exists i :: 0 <= i < |orgs| && e.west == orgs[i].siteLongitude)
  {
    var n := |orgs|;
    var init, last := orgs[..n - 1], orgs[n - 1];
    var e := Envelope(orgs);
    assert ValidateOrganizationCoordinates(last);
    EnvelopeSnoc(orgs);
    if init == [] {
      assert Envelope(init) == InitialBounds;
      assert e == MapBounds(last.siteLatitude, last.siteLatitude, last.siteLongitude, last.siteLongitude);
    } else {
      assert AllValid(init) by {
        forall i | 0 <= i < |init| ensures ValidateOrganizationCoordinates(init[i]) {
          assert init[i] == orgs[i];
        }
      }
      EnvelopeAttained(init);
      var p := Envelope(init);
      assert e == Widen(p, last);
      assert exists i :: 0 <= i < n && e.north == orgs[i].siteLatitude by {
        if p.north >= last.siteLatitude {
          var i :| 0 <= i < |init| && p.north == init[i].siteLatitude;
          assert orgs[i] == init[i];
        } else {
          assert e.north == orgs[n - 1].siteLatitude;
        }
      }
      assert exists i :: 0 <= i < n && e.south == orgs[i].siteLatitude by {
        if p.south <= last.siteLatitude {
          var i :| 0 <= i < |init| && p.south == init[i].siteLatitude;
          assert orgs[i] == init[i];
        } else {
          assert e.south == orgs[n - 1].siteLatitude;
        }
      }
      assert exists i :: 0 <= i < n && e.east == orgs[i].siteLongitude by {
        if p.east >= last.siteLongitude {
          var i :| 0 <= i < |init| && p.east == init[i].siteLongitude;
          assert orgs[i] == init[i];
        } else {
          assert e.east == orgs[n - 1].siteLongitude;
        }
      }
      assert exists i :: 0 <= i < n && e.west == orgs[i].siteLongitude by {
        if p.west <= last.siteLongitude {
          var i :| 0 <= i < |init| && p.west == init[i].siteLongitude;
          assert orgs[i] == init[i];
        } else {
          assert e.west == orgs[n - 1].siteLongitude;
        }
      }
    }
  }

  /** The fold over valid records contains every one of them. */
  lemma {:induction false} EnvelopeContains(orgs: seq<Organization>)
    requires orgs != [] && AllValid(orgs)
    ensures var e := Envelope(orgs);
      forall i :: 0 <= i < |orgs| ==>
        e.south <= orgs[i].siteLatitude <= e.north && e.west <= orgs[i].siteLongitude <= e.east
  {
    var n := |orgs|;
    var init, last := orgs[..n - 1], orgs[n - 1];
    var e := Envelope(orgs);
    assert ValidateOrganizationCoordinates(last);
    EnvelopeSnoc(orgs);
    if init == [] {
      assert Envelope(init) == InitialBounds;
      assert e == MapBounds(last.siteLatitude, last.siteLatitude, last.siteLongitude, last.siteLongitude);
    } else {
      assert AllValid(init) by {
        forall i | 0 <= i < |init| ensures ValidateOrganizationCoordinates(init[i]) {
          assert init[i] == orgs[i];
        }
      }
      EnvelopeContains(init);
      var p := Envelope(init);
      assert e == Widen(p, last);
      forall i | 0 <= i < n
        ensures e.south <= orgs[i].siteLatitude <= e.north && e.west <= orgs[i].siteLongitude <= e.east
      {
        if i < n - 1 {
          assert orgs[i] == init[i];
        }
      }
    }
  }

  /** `calculateBounds` returns `None` exactly when no record has valid coordinates. */
  lemma CalculateBoundsNone(orgs: seq<Organization>)
    ensures CalculateBounds(orgs).None? <==> forall i :: 0 <= i < |orgs| ==> !ValidateOrganizationCoordinates(orgs[i])
  {
    var validOrgs := Filter(orgs, ValidateOrganizationCoordinates);
    if validOrgs != [] {
      assert validOrgs[0] in orgs;
    }
    if exists i :: 0 <= i < |orgs| && ValidateOrganizationCoordinates(orgs[i]) {
      var i :| 0 <= i < |orgs| && ValidateOrganizationCoordinates(orgs[i]);
      assert orgs[i] in validOrgs;
    }
  }

  lemma FilterAllValid(orgs: seq<Organization>)
    ensures AllValid(Filter(orgs, ValidateOrganizationCoordinates))
  {
    var validOrgs := Filter(orgs, ValidateOrganizationCoordinates);
    forall i | 0 <= i < |validOrgs| ensures ValidateOrganizationCoordinates(validOrgs[i]) {
      assert validOrgs[i] in validOrgs;
    }
  }

  /**
   * The non-null result, side by side: the extreme latitude or longitude
   * of the valid records pushed out by a tenth of that axis's span, and
   * clamped to the legal range.
   */
  lemma CalculateBoundsPadding(orgs: seq<Organization>)
    requires CalculateBounds(orgs).Some?
    ensures Filter(orgs, ValidateOrganizationCoordinates) != []
    ensures PaddedExtremes(Filter(orgs, ValidateOrganizationCoordinates), CalculateBounds(orgs).value)
  {
    var validOrgs := Filter(orgs, ValidateOrganizationCoordinates);
    FilterAllValid(orgs);
    EnvelopeIsExtremes(validOrgs);
    PadExtremes(validOrgs, CalculateBounds(orgs).value);
  }

  /**
   * Each side of `b` is the extreme latitude or longitude of `orgs`, pushed
   * outwards by a tenth of the span of that axis and clamped to its range.
   */
  predicate PaddedExtremes(orgs: seq<Organization>, b: MapBounds)
    requires orgs != []
  {
    PaddedSides(b, MaxLatitude(orgs), MinLatitude(orgs), MaxLongitude(orgs), MinLongitude(orgs))
  }

  /** Each side of `b` is the given extreme pushed out by a tenth of its axis's span and clamped to the legal range. */
  predicate PaddedSides(b: MapBounds, north: real, south: real, east: real, west: real) {
    && b.north == Min(LatitudeMax, north + (north - south) * BoundsPaddingFactor)
    && b.south == Max(LatitudeMin, south - (north - south) * BoundsPaddingFactor)
    && b.east == Min(LongitudeMax, east + (east - west) * BoundsPaddingFactor)
    && b.west == Max(LongitudeMin, west - (east - west) * BoundsPaddingFactor)
  }

  lemma PadExtremes(orgs: seq<Organization>, b: MapBounds)
    requires orgs != []
    requires b == Pad(MapBounds(MaxLatitude(orgs), MinLatitude(orgs), MaxLongitude(orgs), MinLongitude(orgs)))
    ensures PaddedExtremes(orgs, b)
  {
    PadSides(MaxLatitude(orgs), MinLatitude(orgs), MaxLongitude(orgs), MinLongitude(orgs));
  }

  /** `Pad` written out side by side. */
  lemma PadSides(north: real, south: real, east: real, west: real)
    ensures PaddedSides(Pad(MapBounds(north, south, east, west)), north, south, east, west)
  {
  }

  /**
   * A non-null result is well ordered (south up to north, west up to east),
   * lies inside the legal ranges, and contains every valid record.
   */
  lemma CalculateBoundsContains(orgs: seq<Organization>)
    requires CalculateBounds(orgs).Some?
    ensures var b := CalculateBounds(orgs).value;
      && LatitudeMin <= b.south <= b.north <= LatitudeMax
      && LongitudeMin <= b.west <= b.east <= LongitudeMax
    ensures var b := CalculateBounds(orgs).value;
      forall i :: 0 <= i < |orgs| && ValidateOrganizationCoordinates(orgs[i]) ==>
        b.south <= orgs[i].siteLatitude <= b.north && b.west <= orgs[i].siteLongitude <= b.east
  {
    var validOrgs := Filter(orgs, ValidateOrganizationCoordinates);
    FilterAllValid(orgs);
    EnvelopeBounds(validOrgs);
    var e := Envelope(validOrgs);
    EnvelopeInRange(validOrgs);
    PadWidens(e);
    forall i | 0 <= i < |orgs| && ValidateOrganizationCoordinates(orgs[i])
      ensures e.south <= orgs[i].siteLatitude <= e.north && e.west <= orgs[i].siteLongitude <= e.east
    {
      assert orgs[i] in validOrgs;
      var k :| 0 <= k < |validOrgs| && validOrgs[k] == orgs[i];
    }
  }

  /** The box around valid records is well ordered and inside the legal ranges. */
  lemma EnvelopeInRange(orgs: seq<Organization>)
    requires orgs != [] && AllValid(orgs)
    ensures var e := Envelope(orgs);
      LatitudeMin <= e.south <= e.north <= LatitudeMax && LongitudeMin <= e.west <= e.east <= LongitudeMax
  {
    EnvelopeBounds(orgs);
    var e := Envelope(orgs);
    var i :| 0 <= i < |orgs| && e.north == orgs[i].siteLatitude;
    var j :| 0 <= j < |orgs| && e.south == orgs[j].siteLatitude;
    var k :| 0 <= k < |orgs| && e.east == orgs[k].siteLongitude;
    var l :| 0 <= l < |orgs| && e.west == orgs[l].siteLongitude;
    assert ValidateOrganizationCoordinates(orgs[i]) && ValidateOrganizationCoordinates(orgs[j]);
    assert ValidateOrganizationCoordinates(orgs[k]) && ValidateOrganizationCoordinates(orgs[l]);
  }

  /** Padding a well-ordered box inside the legal ranges keeps it so, and only ever widens it. */
  lemma PadWidens(e: MapBounds)
    requires LatitudeMin <= e.south <= e.north <= LatitudeMax && LongitudeMin <= e.west <= e.east <= LongitudeMax
    ensures var b := Pad(e);
      && LatitudeMin <= b.south <= e.south && e.north <= b.north <= LatitudeMax
      && LongitudeMin <= b.west <= e.west && e.east <= b.east <= LongitudeMax
  {
  }

  // ---------------------------------------------------------------------
  // getMapCenter and formatCoordinates
  // ---------------------------------------------------------------------

  /** `getMapCenter`: the pair (longitude, latitude) of the box's midpoint; it lies inside any well-ordered box. */
  function GetMapCenter(bounds: MapBounds): (center: (real, real))
    ensures bounds.west <= bounds.east ==> bounds.west <= center.0 <= bounds.east
    ensures bounds.south <= bounds.north ==> bounds.south <= center.1 <= bounds.north
    ensures center.0 - bounds.west == bounds.east - center.0
    ensures center.1 - bounds.south == bounds.north - center.1
  {
    ((bounds.east + bounds.west) / CenterAverageDivisor, (bounds.north + bounds.south) / CenterAverageDivisor)
  }

  /** The centre of the map fitted to a record set is a legal coordinate. */
  lemma CenterOfBoundsIsValid(orgs: seq<Organization>)
    requires CalculateBounds(orgs).Some?
    ensures var c := GetMapCenter(CalculateBounds(orgs).value);
      IsValidCoordinate(Some(c.1), Some(c.0))
  {
    CalculateBoundsContains(orgs);
  }

  /** The hemisphere letter of a latitude in `formatCoordinates`. */
  function LatitudeDirection(lat: real): (d: char)
    ensures d == CardinalNorth || d == CardinalSouth
    ensures d == CardinalNorth <==> lat >= 0.0
  {
    if lat >= 0.0 then CardinalNorth else CardinalSouth
  }

  /** The hemisphere letter of a longitude in `formatCoordinates`. */
  function LongitudeDirection(lng: real): (d: char)
    ensures d == CardinalEast || d == CardinalWest
    ensures d == CardinalEast <==> lng >= 0.0
  {
    if lng >= 0.0 then CardinalEast else CardinalWest
  }

  function Abs(x: real): real { if x >= 0.0 then x else -x }

  /** What `formatCoordinates` prints, before `toFixed(4)`: magnitude and hemisphere letter of each axis. */
  datatype CoordinateLabel = CoordinateLabel(latitude: real, latitudeDirection: char, longitude: real, longitudeDirection: char)

  function FormatCoordinates(lat: real, lng: real): CoordinateLabel {
    CoordinateLabel(Abs(lat), LatitudeDirection(lat), Abs(lng), LongitudeDirection(lng))
  }

  /** Read a label back into signed degrees: a southern or western letter negates the magnitude. */
  function SignedCoordinates(shown: CoordinateLabel): (real, real) {
    (if shown.latitudeDirection == CardinalSouth then -shown.latitude else shown.latitude,
     if shown.longitudeDirection == CardinalWest then -shown.longitude else shown.longitude)
  }

  /** The magnitudes and letters of a label determine the coordinates exactly. */
  lemma FormatCoordinatesRoundTrip(lat: real, lng: real)
    ensures SignedCoordinates(FormatCoordinates(lat, lng)) == (lat, lng)
    ensures FormatCoordinates(lat, lng).latitude >= 0.0 && FormatCoordinates(lat, lng).longitude >= 0.0
  {
  }

  /** Mirroring a non-zero coordinate across the equator or prime meridian flips its letter and keeps its magnitude. */
  lemma MirroredLabel(lat: real, lng: real)
    requires lat != 0.0 && lng != 0.0
    ensures var a, b := FormatCoordinates(lat, lng), FormatCoordinates(-lat, -lng);
      && a.latitude == b.latitude && a.longitude == b.longitude
      && a.latitudeDirection != b.latitudeDirection && a.longitudeDirection != b.longitudeDirection
  {
  }
}
