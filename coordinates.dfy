/** The local flat-earth projection of the preview: a latitude/longitude is
    turned into a pixel position around the reference point, at a scale set
    by the view radius (metres shown from the centre to the side edge). */
module Coordinates {
  import opened Types

  /** Metres per degree of latitude (and, times the longitude factor, of longitude). */
  const MetresPerDegree: real := 111000.0

  /** Everything the projection reads. `lonFactor` stands for
      cos(reference.latitude · π / 180), the shrinking of a degree of
      longitude towards the poles; it is a parameter of the model. */
  datatype Frame = Frame(reference: ReferencePoint, lonFactor: real,
                         previewSize: PreviewSize, viewRadius: real)

  datatype Pixel = Pixel(x: real, y: real)

  /** Pixels per metre: half the preview width covers the view radius. */
  function ScaleFactor(f: Frame): real
    requires f.viewRadius != 0.0
  {
    (f.previewSize.width / 2.0) / f.viewRadius
  }

  /** The centre of the preview area. */
  function Centre(f: Frame): Pixel
  {
    Pixel(f.previewSize.width / 2.0, f.previewSize.height / 2.0)
  }

  /** geoToPixel: east is +x and north is -y, both offsets scaled by ScaleFactor. */
  function GeoToPixel(f: Frame, lat: real, lon: real): Pixel
    requires f.viewRadius != 0.0
  {
    var latDistance := MetresPerDegree;
    var lonDistance := MetresPerDegree * f.lonFactor;
    var latDiff := lat - f.reference.latitude;
    var lonDiff := lon - f.reference.longitude;
    var yDiff := -latDiff * latDistance;
    var xDiff := lonDiff * lonDistance;
    var scale := ScaleFactor(f);
    Pixel(Centre(f).x + xDiff * scale, Centre(f).y + yDiff * scale)
  }

  /** The longitude lying `metres` east of the reference point (west when negative). */
  function EastLongitude(f: Frame, metres: real): real
    requires f.lonFactor != 0.0
  {
    f.reference.longitude + metres / (MetresPerDegree * f.lonFactor)
  }

  /** The latitude lying `metres` north of the reference point (south when negative). */
  function NorthLatitude(f: Frame, metres: real): real
  {
    f.reference.latitude + metres / MetresPerDegree
  }

  /** The same frame seen with a different view radius. */
  function WithViewRadius(f: Frame, r: real): Frame
  {
    f.(viewRadius := r)
  }

  /** The reference point always lands on the centre, whatever the view radius. */
  lemma ReferenceMapsToCentre(f: Frame)
    requires f.viewRadius != 0.0
    ensures GeoToPixel(f, f.reference.latitude, f.reference.longitude) == Centre(f)
  {
  }

  /** x depends on the longitude only, y on the latitude only. */
  lemma AxesAreSeparate(f: Frame, lat1: real, lon1: real, lat2: real, lon2: real)
    requires f.viewRadius != 0.0
    ensures GeoToPixel(f, lat1, lon1).x == GeoToPixel(f, lat2, lon1).x
    ensures GeoToPixel(f, lat1, lon1).y == GeoToPixel(f, lat1, lon2).y
  {
  }

  /** North is up: for a positive scale a larger latitude gives a strictly
      smaller y, and only a positive scale does that. */
  lemma NorthIsUp(f: Frame, lat1: real, lat2: real, lon1: real, lon2: real)
    requires f.viewRadius != 0.0
    requires lat1 < lat2
    ensures GeoToPixel(f, lat2, lon2).y < GeoToPixel(f, lat1, lon1).y <==> ScaleFactor(f) > 0.0
  {
    var s := ScaleFactor(f);
    var d := lat2 - lat1;
    calc {
      GeoToPixel(f, lat1, lon1).y - GeoToPixel(f, lat2, lon2).y;
      -(lat1 - f.reference.latitude) * MetresPerDegree * s + (lat2 - f.reference.latitude) * MetresPerDegree * s;
      (d * MetresPerDegree) * s;
    }
    PositiveProduct(d * MetresPerDegree, s);
  }

  /** A positive factor keeps the sign of the other factor. */
  lemma PositiveProduct(a: real, b: real)
    requires a > 0.0
    ensures a * b > 0.0 <==> b > 0.0
  {
    if b > 0.0 {
      assert a * b > 0.0;
    } else {
      assert a * b <= 0.0;
    }
  }

  /** Moving a point by dLat degrees north moves it up by dLat · 111000 · scale
      pixels, and moving it by dLon degrees east moves it right by
      dLon · 111000 · lonFactor · scale pixels, wherever it started. */
  lemma ShiftIsTranslation(f: Frame, lat: real, lon: real, dLat: real, dLon: real)
    requires f.viewRadius != 0.0
    ensures GeoToPixel(f, lat + dLat, lon).y
            == GeoToPixel(f, lat, lon).y - dLat * MetresPerDegree * ScaleFactor(f)
    ensures GeoToPixel(f, lat, lon + dLon).x
            == GeoToPixel(f, lat, lon).x + dLon * MetresPerDegree * f.lonFactor * ScaleFactor(f)
  {
    var s := ScaleFactor(f);
    var r := f.reference;
    assert -(lat + dLat - r.latitude) * MetresPerDegree * s
           == -(lat - r.latitude) * MetresPerDegree * s - dLat * MetresPerDegree * s;
    assert (lon + dLon - r.longitude) * (MetresPerDegree * f.lonFactor) * s
           == (lon - r.longitude) * (MetresPerDegree * f.lonFactor) * s + dLon * MetresPerDegree * f.lonFactor * s;
  }

  /** A point exactly viewRadius metres east of the reference lands on the
      right edge (x = width), the same distance west on the left edge (x = 0);
      both stay on the horizontal centre line. */
  lemma EastWestEdges(f: Frame)
    requires f.viewRadius != 0.0 && f.lonFactor != 0.0
    ensures GeoToPixel(f, f.reference.latitude, EastLongitude(f, f.viewRadius))
            == Pixel(f.previewSize.width, f.previewSize.height / 2.0)
    ensures GeoToPixel(f, f.reference.latitude, EastLongitude(f, -f.viewRadius))
            == Pixel(0.0, f.previewSize.height / 2.0)
  {
    var w, r, k := f.previewSize.width, f.viewRadius, MetresPerDegree * f.lonFactor;
    assert (r / k) * k == r;
    assert (-r / k) * k == -r;
    assert r * ((w / 2.0) / r) == w / 2.0;
    assert -r * ((w / 2.0) / r) == -(w / 2.0);
  }

  /** The vertical scale is the horizontal one: a point viewRadius metres
      north of the reference lands width/2 pixels above the centre. */
  lemma NorthEdge(f: Frame)
    requires f.viewRadius != 0.0
    ensures GeoToPixel(f, NorthLatitude(f, f.viewRadius), f.reference.longitude)
            == Pixel(f.previewSize.width / 2.0, f.previewSize.height / 2.0 - f.previewSize.width / 2.0)
  {
    var w, r := f.previewSize.width, f.viewRadius;
    assert (r / MetresPerDegree) * MetresPerDegree == r;
    assert -r * ((w / 2.0) / r) == -(w / 2.0);
  }

  /** Multiplying the view radius by k divides both pixel offsets from the
      centre by k. */
  lemma ViewRadiusScalesOffsets(f: Frame, k: real, lat: real, lon: real)
    requires f.viewRadius != 0.0 && k != 0.0
    ensures var p, q := GeoToPixel(f, lat, lon), GeoToPixel(WithViewRadius(f, f.viewRadius * k), lat, lon);
      && q.x - Centre(f).x == (p.x - Centre(f).x) / k
      && q.y - Centre(f).y == (p.y - Centre(f).y) / k
  {
    var g := WithViewRadius(f, f.viewRadius * k);
    var s := ScaleFactor(f);
    assert ScaleFactor(g) == s / k;
    var xd := (lon - f.reference.longitude) * (MetresPerDegree * f.lonFactor);
    var yd := -(lat - f.reference.latitude) * MetresPerDegree;
    assert xd * (s / k) == (xd * s) / k;
    assert yd * (s / k) == (yd * s) / k;
  }

  /** Doubling the view radius halves the pixel offsets on both axes. */
  lemma DoublingViewRadiusHalvesOffsets(f: Frame, lat: real, lon: real)
    requires f.viewRadius != 0.0
    ensures var p, q := GeoToPixel(f, lat, lon), GeoToPixel(WithViewRadius(f, 2.0 * f.viewRadius), lat, lon);
      && q.x - Centre(f).x == (p.x - Centre(f).x) / 2.0
      && q.y - Centre(f).y == (p.y - Centre(f).y) / 2.0
  {
    assert 2.0 * f.viewRadius == f.viewRadius * 2.0;
    ViewRadiusScalesOffsets(f, 2.0, lat, lon);
  }

  /** With a non-degenerate frame (non-zero width, longitude factor not zero,
      i.e. away from the poles) distinct points land on distinct pixels. */
  lemma GeoToPixelInjective(f: Frame, lat1: real, lon1: real, lat2: real, lon2: real)
    requires f.viewRadius != 0.0 && f.previewSize.width != 0.0 && f.lonFactor != 0.0
    requires GeoToPixel(f, lat1, lon1) == GeoToPixel(f, lat2, lon2)
    ensures lat1 == lat2 && lon1 == lon2
  {
    var s := ScaleFactor(f);
    assert s != 0.0;
    ShiftIsTranslation(f, lat1, lon1, lat2 - lat1, lon2 - lon1);
    assert GeoToPixel(f, lat2, lon1).y == GeoToPixel(f, lat1, lon1).y;
    assert (lat2 - lat1) * MetresPerDegree * s == 0.0;
    assert GeoToPixel(f, lat1, lon2).x == GeoToPixel(f, lat1, lon1).x;
    assert (lon2 - lon1) * MetresPerDegree * f.lonFactor * s == 0.0;
  }
}
