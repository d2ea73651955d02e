/** The map region around some places, and when every place is inside it. */
module GeoRegion {
  import opened Geo
  import opened RealFacts

  datatype Place = Place(latitude: real, longitude: real)

  datatype Region = Region(latitude: real, longitude: real, latitudeDelta: real, longitudeDelta: real)

  const MINIMUM_SPAN := 0.02
  const LATITUDE_CAP := 170.0
  const LONGITUDE_CAP := 350.0
  const WORLD := Region(20.0, 0.0, 120.0, 180.0)

  function Highest(xs: seq<real>): (x: real)
    requires xs != []
    ensures x in xs && forall y :: y in xs ==> y <= x
  {
    if |xs| == 1 then xs[0] else
    assert xs == [xs[0]] + xs[1..];
    var rest := Highest(xs[1..]);
    if xs[0] > rest then xs[0] else rest
  }

  function Lowest(xs: seq<real>): (x: real)
    requires xs != []
    ensures x in xs && forall y :: y in xs ==> x <= y
  {
    if |xs| == 1 then xs[0] else
    assert xs == [xs[0]] + xs[1..];
    var rest := Lowest(xs[1..]);
    if xs[0] < rest then xs[0] else rest
  }

  /** An extent made larger, but neither tiny nor beyond what a map can show. */
  function Padded(extent: real, padding: real, cap: real): real {
    var wanted := if extent * padding > MINIMUM_SPAN then extent * padding else MINIMUM_SPAN;
    if wanted < cap then wanted else cap
  }

  function FitRegion(places: seq<Place>, padding: real): Region {
    if places == [] then WORLD else
    var north, south := Highest(Latitudes(places)), Lowest(Latitudes(places));
    var (center, span) := LongitudeExtent(Longitudes(places));
    Region((north + south) / 2.0, center, Padded(north - south, padding, LATITUDE_CAP), Padded(span, padding, LONGITUDE_CAP))
  }

  /** The region is centered on the places, and as large as the padding makes their extent unless that is tiny or
      more than a map shows. */
  lemma FittedRegion(places: seq<Place>, padding: real, north: Place, south: Place)
    requires north in places && south in places
    requires forall p <- places :: south.latitude <= p.latitude <= north.latitude
    ensures var r := FitRegion(places, padding);
            && r.latitude == (north.latitude + south.latitude) / 2.0
            && r.longitude == LongitudeExtent(Longitudes(places)).0
            && Sized(r.latitudeDelta, north.latitude - south.latitude, padding, 170.0)
            && Sized(r.longitudeDelta, LongitudeExtent(Longitudes(places)).1, padding, 350.0)
  {
    LatitudeEnds(places, north, south);
    FitParts(places, padding);
  }

  lemma FitParts(places: seq<Place>, padding: real)
    requires places != []
    ensures var r, xs, extent := FitRegion(places, padding), Latitudes(places), LongitudeExtent(Longitudes(places));
            && r.latitude == (Highest(xs) + Lowest(xs)) / 2.0 && r.longitude == extent.0
            && Sized(r.latitudeDelta, Highest(xs) - Lowest(xs), padding, 170.0)
            && Sized(r.longitudeDelta, extent.1, padding, 350.0)
  {
    var xs, extent := Latitudes(places), LongitudeExtent(Longitudes(places));
    PaddedSized(Highest(xs) - Lowest(xs), padding, 170.0);
    PaddedSized(extent.1, padding, 350.0);
  }

  lemma PaddedSized(extent: real, padding: real, cap: real)
    requires cap >= 0.02
    ensures Sized(Padded(extent, padding, cap), extent, padding, cap)
  {
  }

  lemma LatitudeEnds(places: seq<Place>, north: Place, south: Place)
    requires north in places && south in places
    requires forall p <- places :: south.latitude <= p.latitude <= north.latitude
    ensures Highest(Latitudes(places)) == north.latitude && Lowest(Latitudes(places)) == south.latitude
  {
    var xs := Latitudes(places);
    var n :| 0 <= n < |places| && places[n] == north;
    var s :| 0 <= s < |places| && places[s] == south;
    assert xs[n] in xs && xs[s] in xs;
    forall x | x in xs ensures south.latitude <= x <= north.latitude {
      var i :| 0 <= i < |xs| && xs[i] == x;
      assert places[i] in places;
    }
    EndsAre(xs, north.latitude, south.latitude);
  }

  lemma EndsAre(xs: seq<real>, high: real, low: real)
    requires high in xs && low in xs && forall x :: x in xs ==> low <= x <= high
    ensures Highest(xs) == high && Lowest(xs) == low
  {
    var h, l := Highest(xs), Lowest(xs);
    assert h in xs && l in xs;
  }

  /** The padded extent, or the bound it crosses. */
  predicate Sized(size: real, extent: real, padding: real, cap: real) {
    var wanted := extent * padding;
    && (0.02 <= wanted <= cap ==> size == wanted)
    && (wanted < 0.02 ==> size == 0.02)
    && (wanted > cap ==> size == cap)
  }

  function Longitudes(places: seq<Place>): (r: seq<real>)
    ensures |r| == |places| && forall i :: 0 <= i < |r| ==> r[i] == places[i].longitude
  {
    seq(|places|, i requires 0 <= i < |places| => places[i].longitude)
  }

  function Latitudes(places: seq<Place>): (r: seq<real>)
    ensures |r| == |places| && forall i :: 0 <= i < |r| ==> r[i] == places[i].latitude
  {
    seq(|places|, i requires 0 <= i < |places| => places[i].latitude)
  }

  // -- what a region shows --

  /** At most `reach` degrees from the center, to the east or to the west. */
  predicate Near(center: real, reach: real, x: real) {
    Mod360(x - center) <= reach || Mod360(center - x) <= reach
  }

  predicate Frames(r: Region, p: Place) {
    && r.latitude - r.latitudeDelta / 2.0 <= p.latitude <= r.latitude + r.latitudeDelta / 2.0
    && Near(r.longitude, r.longitudeDelta / 2.0, p.longitude)
  }

  /** An extent that the cap leaves whole and the padding does not shrink, unless it is tiny anyway. */
  predicate Fits(extent: real, padding: real, cap: real) {
    extent <= cap && (extent <= MINIMUM_SPAN || padding >= 1.0)
  }

  lemma PaddedHolds(extent: real, padding: real, cap: real)
    requires 0.0 <= extent && MINIMUM_SPAN <= cap
    ensures extent <= Padded(extent, padding, cap) <==> Fits(extent, padding, cap)
  {
    Scaled(extent, padding, extent * padding);
  }

  lemma Scaled(extent: real, padding: real, wanted: real)
    requires 0.0 <= extent && wanted == extent * padding
    ensures padding >= 1.0 ==> wanted >= extent
    ensures padding < 1.0 && extent > 0.0 ==> wanted < extent
    ensures extent == 0.0 ==> wanted == 0.0
  {
    if padding >= 1.0 { ProductSign(extent, padding - 1.0); }
    if padding < 1.0 && extent > 0.0 { ProductPositive(extent, 1.0 - padding); }
    assert extent * (padding - 1.0) == wanted - extent && extent * (1.0 - padding) == extent - wanted;
  }

  lemma LatitudesFramed(latitudes: seq<real>, delta: real)
    requires latitudes != []
    ensures var north, south := Highest(latitudes), Lowest(latitudes);
            var middle := (north + south) / 2.0;
            (forall x :: x in latitudes ==> middle - delta / 2.0 <= x <= middle + delta / 2.0) <==> north - south <= delta
  {
    var north, south := Highest(latitudes), Lowest(latitudes);
    assert north in latitudes && south in latitudes;
  }

  /** The places at the ends of the arc are half a span away, so that much must be shown. */
  lemma LongitudesFramed(longitudes: seq<real>, delta: real)
    requires longitudes != [] && (forall i :: 0 <= i < |longitudes| ==> InRange(longitudes[i]))
    requires 0.0 <= delta <= LONGITUDE_CAP
    ensures var (center, span) := LongitudeExtent(longitudes);
            (forall x :: x in longitudes ==> Near(center, delta / 2.0, x)) <==> span <= delta
  {
    if Different(longitudes) {
      if LongitudeExtent(longitudes).1 <= delta {
        forall x | x in longitudes ensures Near(LongitudeExtent(longitudes).0, delta / 2.0, x) {
          ExtentHolds(longitudes, x);
        }
      } else {
        StartOutside(longitudes, delta);
      }
    } else if |longitudes| > 1 {
      EqualOpposite(longitudes);
    } else {
      OneInside(longitudes, delta);
    }
  }

  /** When less than the span is shown, the place that the arc starts at is not. */
  lemma StartOutside(longitudes: seq<real>, delta: real)
    requires (forall i :: 0 <= i < |longitudes| ==> InRange(longitudes[i])) && Different(longitudes)
    requires 0.0 <= delta <= LONGITUDE_CAP && delta < LongitudeExtent(longitudes).1
    ensures Arc(longitudes).0 in longitudes && !Near(LongitudeExtent(longitudes).0, delta / 2.0, Arc(longitudes).0)
  {
    CenterHalfway(longitudes);
    SortReady(longitudes);
    var o := Sort(longitudes);
    var (start, span) := Arc(longitudes);
    SortMembers(longitudes, start);
    ArcHolds(longitudes, longitudes[0]);
    var center := LongitudeExtent(longitudes).0;
    Opposite(center - start);
  }

  lemma Opposite(d: real)
    requires Mod360(d) > 0.0
    ensures Mod360(-d) == 360.0 - Mod360(d)
  {
    Mod360Unique(-d, 360.0 - Mod360(d), -Turns(d) - 1);
  }

  /** Several equal longitudes: the center is on the other side of the globe. */
  lemma EqualOpposite(longitudes: seq<real>)
    requires |longitudes| > 1 && !Different(longitudes) && InRange(longitudes[0])
    ensures longitudes[0] in longitudes && LongitudeExtent(longitudes).1 == 360.0
    ensures !Near(LongitudeExtent(longitudes).0, LONGITUDE_CAP / 2.0, longitudes[0])
  {
    EqualSpanGlobe(longitudes);
    SortMeansSize(longitudes);
    var (start, span) := Arc(longitudes);
    SortMembers(longitudes, start);
    var i :| 0 <= i < |longitudes| && longitudes[i] == start;
    assert i > 0 ==> longitudes[0] == longitudes[i];
    var x, center := longitudes[0], LongitudeExtent(longitudes).0;
    var k := Turns(start + 180.0 + 180.0);
    assert center == start + 360.0 - 360.0 * k as real - 180.0;
    Mod360Unique(center - x, 180.0, -k);
    Opposite(center - x);
    assert -(center - x) == x - center;
  }

  lemma OneInside(longitudes: seq<real>, delta: real)
    requires |longitudes| == 1 && InRange(longitudes[0]) && delta >= 0.0
    ensures LongitudeExtent(longitudes) == (longitudes[0], 0.0) && Near(longitudes[0], delta / 2.0, longitudes[0])
  {
    SortMeansSize(longitudes);
    SortMembers(longitudes, Sort(longitudes)[0]);
    Mod360Unique(longitudes[0] + 180.0, longitudes[0] + 180.0, 0);
    Mod360Difference(0.0);
  }

  /** Every place is in the frame exactly when no extent is beyond its cap or shrunk by the padding. */
  lemma FramesExactlyWhen(places: seq<Place>, padding: real)
    requires places != [] && forall i :: 0 <= i < |places| ==> InRange(places[i].longitude)
    ensures var height := Highest(Latitudes(places)) - Lowest(Latitudes(places));
            (forall p :: p in places ==> Frames(FitRegion(places, padding), p)) <==>
            Fits(height, padding, LATITUDE_CAP) && Fits(LongitudeExtent(Longitudes(places)).1, padding, LONGITUDE_CAP)
  {
    var latitudes, longitudes, region := Latitudes(places), Longitudes(places), FitRegion(places, padding);
    var height, span := Highest(latitudes) - Lowest(latitudes), LongitudeExtent(longitudes).1;
    PaddedHolds(height, padding, LATITUDE_CAP);
    SpanPositive(longitudes);
    PaddedHolds(span, padding, LONGITUDE_CAP);
    LatitudesFramed(latitudes, region.latitudeDelta);
    LongitudesFramed(longitudes, region.longitudeDelta);
    EachFramed(places, region);
  }

  lemma SpanPositive(longitudes: seq<real>)
    requires longitudes != [] && forall i :: 0 <= i < |longitudes| ==> InRange(longitudes[i])
    ensures LongitudeExtent(longitudes).1 >= 0.0
  {
    if Different(longitudes) {
      ArcHolds(longitudes, longitudes[0]);
    } else if |longitudes| > 1 {
      EqualSpanGlobe(longitudes);
    } else {
      OneInside(longitudes, 0.0);
    }
  }

  /** Framing the places is framing their latitudes and framing their longitudes. */
  lemma EachFramed(places: seq<Place>, r: Region)
    ensures (forall p :: p in places ==> Frames(r, p)) <==>
            (forall x :: x in Latitudes(places) ==> r.latitude - r.latitudeDelta / 2.0 <= x <= r.latitude + r.latitudeDelta / 2.0) &&
            (forall x :: x in Longitudes(places) ==> Near(r.longitude, r.longitudeDelta / 2.0, x))
  {
    if forall p :: p in places ==> Frames(r, p) {
      forall i | 0 <= i < |places| ensures Frames(r, places[i]) { assert places[i] in places; }
    } else {
      var p :| p in places && !Frames(r, p);
      var i :| 0 <= i < |places| && places[i] == p;
      assert Latitudes(places)[i] == p.latitude && Longitudes(places)[i] == p.longitude;
      assert Latitudes(places)[i] in Latitudes(places) && Longitudes(places)[i] in Longitudes(places);
    }
  }

  /** Two entries written at the same place: with the usual padding, the map shows the other side of the globe. */
  lemma SamePlaceTwiceOutside(p: Place)
    requires InRange(p.longitude)
    ensures !Frames(FitRegion([p, p], 1.4), p)
  {
    var longitudes := Longitudes([p, p]);
    assert [p, p][0] == p && longitudes[0] == p.longitude && longitudes[1] == p.longitude;
    EqualOpposite(longitudes);
    assert FitRegion([p, p], 1.4).longitudeDelta == LONGITUDE_CAP;
  }
}
