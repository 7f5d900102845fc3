/**
 The style record the earthquake layer gives each circle marker (dataStyle).
 A feature carries its GeoJSON coordinates (longitude, latitude, depth) and
 its magnitude property.
 */
module Style {

  import opened Colors
  import opened Classifier
  import opened Scaler

  datatype Feature = Feature(coordinates: seq<real>, mag: real)

  /** Marker style; fillColor is the color whose CSS name the record carries. */
  datatype MarkerStyle = MarkerStyle(
    opacity: real,
    fillOpacity: real,
    fillColor: Color,
    color: string,
    radius: real,
    weight: real)

  /**
   Fill color from the third coordinate. When the feature has no third
   coordinate, JavaScript passes `undefined` to getColor; every `>` test is
   then false and the ladder falls through to its default.
   */
  function FillColor(coordinates: seq<real>): (c: Color)
    ensures |coordinates| >= 3 ==> InBand(c, coordinates[2])
    ensures |coordinates| < 3 ==> Rank(c) == 0
  {
    if |coordinates| >= 3 then
      GetColorIsBand(coordinates[2], GetColor(coordinates[2]));
      GetColor(coordinates[2])
    else
      Springgreen
  }

  /**
   The style of one earthquake marker: the fill color is the depth band of
   the feature, the radius encodes its magnitude, and every other field is
   the same fixed value for all features.
   */
  function DataStyle(f: Feature): (s: MarkerStyle)
    ensures |f.coordinates| >= 3 ==> InBand(s.fillColor, f.coordinates[2])
    ensures |f.coordinates| < 3 ==> s.fillColor == Springgreen
    ensures MagnitudeOfRadius(s.radius) == f.mag
    ensures s.opacity == 0.6 && s.fillOpacity == 0.5 && s.weight == 0.5
    ensures s.color == "black"
  {
    MarkerStyle(
      opacity := 0.6,
      fillOpacity := 0.5,
      fillColor := FillColor(f.coordinates),
      color := "black",
      radius := RadiusSize(f.mag),
      weight := 0.5)
  }

  /** The style depends on a feature only through its depth and its magnitude. */
  lemma DataStyleDependsOnDepthAndMagnitude(f: Feature, g: Feature)
    requires |f.coordinates| >= 3 && |g.coordinates| >= 3
    ensures DataStyle(f) == DataStyle(g) <==> GetColor(f.coordinates[2]) == GetColor(g.coordinates[2]) && f.mag == g.mag
  {
  }

  /** A deeper and stronger earthquake is drawn no lower on the color scale and no smaller. */
  lemma DataStyleOrdered(f: Feature, g: Feature)
    requires |f.coordinates| >= 3 && |g.coordinates| >= 3
    requires f.coordinates[2] <= g.coordinates[2] && f.mag <= g.mag
    ensures Rank(DataStyle(f).fillColor) <= Rank(DataStyle(g).fillColor)
    ensures DataStyle(f).radius <= DataStyle(g).radius
  {
  }

  /** A magnitude-4 earthquake at depth 35 is drawn orange with radius 20. */
  lemma DataStyleExample(lng: real, lat: real)
    ensures DataStyle(Feature([lng, lat, 35.0], 4.0)).fillColor == Orange
    ensures Name(DataStyle(Feature([lng, lat, 35.0], 4.0)).fillColor) == "orange"
    ensures DataStyle(Feature([lng, lat, 35.0], 4.0)).radius == 20.0
  {
  }
}
