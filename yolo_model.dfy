/** The simulated rooftop detector (yolo_model.py): the deterministic geometry
    that turns random pixel polygons into geographic rooftops. The random draws
    (polygon sizes, vertex offsets, confidences, uuids) and the trigonometry
    are inputs here. */
module YoloModel {
  import opened Models

  // ---------------------------------------------------------------------------
  // Pixels and coordinates

  /** `max(0, min(size - 1, v))`: keeps a pixel index inside the image. */
  function Clamp(v: int, size: int): (r: int)
    ensures 0 <= r
    ensures size >= 1 ==> r <= size - 1
    ensures 0 <= v <= size - 1 ==> r == v
    ensures v < 0 ==> r == 0
    ensures size >= 1 && v > size - 1 ==> r == size - 1
  {
    var m := if v <= size - 1 then v else size - 1;
    if m >= 0 then m else 0
  }

  /** The linear pixel-to-degree map: x runs west to east, y north to south.
      The result is (lat, lng). */
  function PixelToGeo(x: int, y: int, width: int, height: int, b: Bounds): (real, real)
    requires width > 0 && height > 0
  {
    var lng := b.west + (x as real / width as real) * (b.east - b.west);
    var lat := b.north - (y as real / height as real) * (b.north - b.south);
    (lat, lng)
  }

  lemma FractionOfSpan(i: int, n: int, span: real)
    requires 0 <= i < n && span > 0.0
    ensures 0.0 <= (i as real / n as real) * span < span
  {
    var f := i as real / n as real;
    assert f * n as real == i as real;
    assert 0.0 <= f < 1.0;
  }

  /** A pixel inside the image maps into the box: west <= lng < east and
      south < lat <= north. */
  lemma PixelToGeoInBounds(x: int, y: int, width: int, height: int, b: Bounds)
    requires 0 <= x < width && 0 <= y < height
    requires b.west < b.east && b.south < b.north
    ensures var p := PixelToGeo(x, y, width, height, b);
      InBox(p, b)
  {
    FractionOfSpan(x, width, b.east - b.west);
    FractionOfSpan(y, height, b.north - b.south);
    var p := PixelToGeo(x, y, width, height, b);
    assert p.1 == b.west + (x as real / width as real) * (b.east - b.west);
    assert p.0 == b.north - (y as real / height as real) * (b.north - b.south);
  }

  /** A (lat, lng) point in the half-open box a pixel can map to. */
  predicate InBox(p: (real, real), b: Bounds)
  {
    b.south < p.0 <= b.north && b.west <= p.1 < b.east
  }

  // ---------------------------------------------------------------------------
  // Rings and centroids

  /** `geo_coords.append(geo_coords[0])`: closes the polygon. */
  function CloseRing(vertices: seq<(real, real)>): (ring: seq<(real, real)>)
    requires |vertices| > 0
    ensures |ring| == |vertices| + 1
    ensures ring[|ring| - 1] == ring[0]
    ensures ring[..|vertices|] == vertices
  {
    vertices + [vertices[0]]
  }

  /** The latitudes (first components) of the points. */
  function Lats(points: seq<(real, real)>): (r: seq<real>)
    ensures |r| == |points|
    ensures forall i :: 0 <= i < |points| ==> r[i] == points[i].0
  {
    seq(|points|, i requires 0 <= i < |points| => points[i].0)
  }

  /** The longitudes (second components) of the points. */
  function Lngs(points: seq<(real, real)>): (r: seq<real>)
    ensures |r| == |points|
    ensures forall i :: 0 <= i < |points| ==> r[i] == points[i].1
  {
    seq(|points|, i requires 0 <= i < |points| => points[i].1)
  }

  /** The componentwise mean of the points. */
  function VertexMean(points: seq<(real, real)>): (real, real)
    requires |points| > 0
  {
    (Sum(Lats(points)) / |points| as real, Sum(Lngs(points)) / |points| as real)
  }

  /** The centroid the detector reports: the mean of the ring without its
      last (closing) point. */
  function Centroid(ring: seq<(real, real)>): (real, real)
    requires |ring| >= 2
  {
    VertexMean(ring[..|ring| - 1])
  }

  /** The centroid of a closed ring is the vertex mean: the closing duplicate
      is not counted. */
  lemma CentroidOfClosedRing(vertices: seq<(real, real)>)
    requires |vertices| > 0
    ensures Centroid(CloseRing(vertices)) == VertexMean(vertices)
  {
    var ring := CloseRing(vertices);
    assert ring[..|ring| - 1] == vertices;
  }

  /** Vertices in a box have their mean, and so the centroid of their closed
      ring, in the same box. */
  lemma CentroidInBox(vertices: seq<(real, real)>, b: Bounds)
    requires |vertices| > 0
    requires forall i :: 0 <= i < |vertices| ==> InBox(vertices[i], b)
    ensures InBox(VertexMean(vertices), b)
    ensures InBox(Centroid(CloseRing(vertices)), b)
  {
    CentroidOfClosedRing(vertices);
    var lats, lngs := Lats(vertices), Lngs(vertices);
    MeanBetween(lats, MinOf(lats), MaxOf(lats));
    MeanBetween(lngs, MinOf(lngs), MaxOf(lngs));
  }

  /** The average latitude used for the longitude scale runs over the closed
      ring, so it counts the first vertex twice (unlike the centroid). */
  lemma AvgLatCountsFirstVertexTwice(vertices: seq<(real, real)>)
    requires |vertices| > 0
    ensures var ring := CloseRing(vertices);
      Sum(Lats(ring)) == Sum(Lats(vertices)) + vertices[0].0 && |ring| == |vertices| + 1
  {
    var ring := CloseRing(vertices);
    assert Lats(ring)[..|ring| - 1] == Lats(vertices);
  }

  // ---------------------------------------------------------------------------
  // Shoelace area

  /** The cross term of two consecutive ring points. */
  function Cross(p: (real, real), q: (real, real)): real
  {
    p.0 * q.1 - q.0 * p.1
  }

  /** Sum of the cross terms over consecutive pairs, left to right. */
  function ShoelaceSum(c: seq<(real, real)>): real
  {
    if |c| < 2 then 0.0 else ShoelaceSum(c[..|c| - 1]) + Cross(c[|c| - 2], c[|c| - 1])
  }

  function Abs(x: real): (r: real)
    ensures r >= 0.0 && (r == x || r == -x)
  {
    if x < 0.0 then -x else x
  }

  /** `abs(area) / 2`: the polygon area in square degrees. */
  function ShoelaceArea(c: seq<(real, real)>): (a: real)
    ensures a >= 0.0
  {
    Abs(ShoelaceSum(c)) / 2.0
  }

  function Reverse<T>(s: seq<T>): (r: seq<T>)
    ensures |r| == |s|
    ensures forall i :: 0 <= i < |s| ==> r[i] == s[|s| - 1 - i]
  {
    if |s| == 0 then [] else [s[|s| - 1]] + Reverse(s[..|s| - 1])
  }

  lemma {:induction false} ShoelaceCons(p: (real, real), c: seq<(real, real)>)
    requires |c| > 0
    ensures ShoelaceSum([p] + c) == Cross(p, c[0]) + ShoelaceSum(c)
    decreases |c|
  {
    var pc := [p] + c;
    if |c| > 1 {
      assert pc[..|pc| - 1] == [p] + c[..|c| - 1];
      ShoelaceCons(p, c[..|c| - 1]);
    } else {
      assert pc[..|pc| - 1] == [p];
    }
  }

  /** Walking the ring the other way negates the signed sum, so the area does
      not depend on the ring's orientation. */
  lemma {:induction false} ShoelaceReverse(c: seq<(real, real)>)
    ensures ShoelaceSum(Reverse(c)) == -ShoelaceSum(c)
    ensures ShoelaceArea(Reverse(c)) == ShoelaceArea(c)
    decreases |c|
  {
    if |c| >= 2 {
      var init := c[..|c| - 1];
      ShoelaceReverse(init);
      assert Reverse(c) == [c[|c| - 1]] + Reverse(init);
      ShoelaceCons(c[|c| - 1], Reverse(init));
      assert Reverse(init)[0] == c[|c| - 2];
    } else if |c| == 1 {
      assert Reverse(c) == c;
    }
  }

  /** Python's `x % m` for a positive m: the remainder of floor division. */
  function FloorMod(x: real, m: real): (r: real)
    requires m > 0.0
    ensures 0.0 <= r < m
  {
    var q := (x / m).Floor;
    FloorBracket(x, m, q);
    x - m * q as real
  }

  lemma FloorBracket(x: real, m: real, q: int)
    requires m > 0.0 && q == (x / m).Floor
    ensures q as real * m <= x < q as real * m + m
  {
    var f := x / m;
    assert f * m == x;
    assert q as real <= f < q as real + 1.0;
    MulMonotone(q as real, f, m);
    MulStrictMonotone(f, q as real + 1.0, m);
    assert f * m < (q as real + 1.0) * m;
    assert (q as real + 1.0) * m == q as real * m + m;
    assert x < q as real * m + m;
  }

  lemma MulMonotone(a: real, b: real, m: real)
    requires a <= b && m > 0.0
    ensures a * m <= b * m
  {
  }

  lemma MulStrictMonotone(a: real, b: real, m: real)
    requires a < b && m > 0.0
    ensures a * m < b * m
  {
  }

  lemma MulCancelStrict(a: real, b: real, m: real)
    requires a * m < b * m && m > 0.0
    ensures a < b
  {
    if a >= b {
      MulMonotone(b, a, m);
    }
  }

  lemma DivBounds(r: real, m: real)
    requires m > 0.0 && 0.0 <= r < m
    ensures 0.0 <= r / m < 1.0
  {
    var f := r / m;
    assert f * m == r;
    assert 1.0 * m == m;
    MulCancelStrict(f, 1.0, m);
    assert 0.0 * m == 0.0;
    if f < 0.0 {
      MulMonotone(f, 0.0, m);
    }
  }

  /** FloorMod is the remainder of floor division: whenever x is a whole
      multiple of m plus some r in [0, m), that r is FloorMod(x, m). */
  lemma FloorModUnique(x: real, m: real, q: int, r: real)
    requires m > 0.0 && 0.0 <= r < m && x == q as real * m + r
    ensures FloorMod(x, m) == r
  {
    var f := r / m;
    DivBounds(r, m);
    assert x / m == q as real + f;
    assert (x / m).Floor == q;
  }

  /** Square metres per square degree (111 km per degree, squared). */
  const MetresPerDegreeSquared: real := 111000.0 * 111000.0

  /** An area in square degrees converted to square metres. */
  function SquareMetres(areaDegrees: real, longitudeScale: real): real
  {
    areaDegrees * MetresPerDegreeSquared * longitudeScale
  }

  /** `_calculate_approx_area`: shoelace area in square degrees, scaled to square
      metres by 111 km per degree and by the cosine of the ring's average
      latitude (`np.cos(np.radians(avg_lat))`, given as `cosDeg`, the cosine of
      an angle in degrees), then folded into [5, 45). */
  function ApproxAreaOf(coords: seq<(real, real)>, cosDeg: real -> real): real
    requires |coords| > 0
  {
    var avgLat := Sum(Lats(coords)) / |coords| as real;
    var areaM2 := SquareMetres(ShoelaceArea(coords), cosDeg(avgLat));
    5.0 + FloorMod(areaM2, 40.0)
  }

  /** `_calculate_approx_area` as the source computes it, accumulating the
      shoelace sum in a loop. */
  method CalculateApproxArea(coords: seq<(real, real)>, cosDeg: real -> real) returns (scaled: real)
    requires |coords| > 0
    ensures scaled == ApproxAreaOf(coords, cosDeg)
    ensures 5.0 <= scaled < 45.0
  {
    var area := 0.0;
    for i := 0 to |coords| - 1
      invariant area == ShoelaceSum(coords[..i + 1])
    {
      assert coords[..i + 2][..i + 1] == coords[..i + 1];
      area := area + (coords[i].0 * coords[i + 1].1 - coords[i + 1].0 * coords[i].1);
    }
    assert coords[..|coords|] == coords;
    assert area == ShoelaceSum(coords);
    area := Abs(area) / 2.0;
    assert area == ShoelaceArea(coords);
    var avgLat := Sum(Lats(coords)) / |coords| as real;
    var longitudeScale := cosDeg(avgLat);
    var areaM2 := SquareMetres(area, longitudeScale);
    scaled := 5.0 + FloorMod(areaM2, 40.0);
  }

  // ---------------------------------------------------------------------------
  // Simulated detections

  /** The random draws behind one simulated rooftop: its uuid, its vertices
      (polygon centre plus polar offsets truncated toward zero, before clamping) and its
      confidence. */
  datatype PolygonDraw = PolygonDraw(id: string, points: seq<(int, int)>, confidence: real)

  /** The ranges the source draws from: 4 to 6 vertices, confidence in [0.7, 0.98). */
  predicate ValidDraw(d: PolygonDraw)
  {
    4 <= |d.points| <= 6 && 0.7 <= d.confidence < 0.98
  }

  /** The draws of one call: 3 to 8 polygons, each valid. */
  predicate ValidDraws(draws: seq<PolygonDraw>)
  {
    3 <= |draws| <= 8 && forall k :: 0 <= k < |draws| ==> ValidDraw(draws[k])
  }

  /** The drawn pixels clamped into the image. */
  function ClampedPixels(points: seq<(int, int)>, width: int, height: int): (ps: seq<(int, int)>)
    ensures |ps| == |points|
  {
    seq(|points|, j requires 0 <= j < |points| => (Clamp(points[j].0, width), Clamp(points[j].1, height)))
  }

  /** The clamped pixel vertices mapped to (lat, lng). */
  function Vertices(width: int, height: int, b: Bounds, points: seq<(int, int)>): (vs: seq<(real, real)>)
    requires width > 0 && height > 0
    ensures |vs| == |points|
  {
    var ps := ClampedPixels(points, width, height);
    seq(|ps|, j requires 0 <= j < |ps| => PixelToGeo(ps[j].0, ps[j].1, width, height, b))
  }

  /** The rooftop the simulation builds from one draw. */
  function SimulatedRooftop(width: int, height: int, b: Bounds, cosDeg: real -> real, d: PolygonDraw): Rooftop
    requires width > 0 && height > 0 && ValidDraw(d)
  {
    var ring := CloseRing(Vertices(width, height, b, d.points));
    Rooftop(d.id, ring, ApproxAreaOf(ring, cosDeg), d.confidence, Centroid(ring))
  }

  /** Every simulated rooftop has a closed ring one longer than its vertex
      list, all of whose points lie in the box, and its centroid is the vertex
      mean and lies in the box. */
  lemma SimulatedRingInBox(width: int, height: int, b: Bounds, cosDeg: real -> real, d: PolygonDraw)
    requires width > 0 && height > 0 && ValidDraw(d)
    requires b.west < b.east && b.south < b.north
    ensures var r := SimulatedRooftop(width, height, b, cosDeg, d);
      var vs := Vertices(width, height, b, d.points);
      && |r.coordinates| == |d.points| + 1
      && r.coordinates[|r.coordinates| - 1] == r.coordinates[0]
      && (forall i :: 0 <= i < |r.coordinates| ==> InBox(r.coordinates[i], b))
      && r.centroid == VertexMean(vs)
      && InBox(r.centroid, b)
  {
    var vs := Vertices(width, height, b, d.points);
    forall i | 0 <= i < |vs|
      ensures InBox(vs[i], b)
    {
      var ps := ClampedPixels(d.points, width, height);
      PixelToGeoInBounds(ps[i].0, ps[i].1, width, height, b);
    }
    var ring := CloseRing(vs);
    assert forall i :: 0 <= i < |ring| ==> ring[i] == if i < |vs| then vs[i] else vs[0];
    CentroidOfClosedRing(vs);
    CentroidInBox(vs, b);
  }

  /** What every detected rooftop satisfies: its ring lies in the box (the
      half-open box of `InBox`, which a sub-box preserves), its area in
      [5, 45) and its confidence in [0.7, 0.98). */
  predicate DetectedWithin(r: Rooftop, b: Bounds)
  {
    && (forall i :: 0 <= i < |r.coordinates| ==> InBox(r.coordinates[i], b))
    && 5.0 <= r.area < 45.0
    && 0.7 <= r.confidence < 0.98
  }

  /** Every simulated rooftop keeps the drawn uuid and confidence, and its area
      lies in [5, 45). */
  lemma SimulatedRooftopFields(width: int, height: int, b: Bounds, cosDeg: real -> real, d: PolygonDraw)
    requires width > 0 && height > 0 && ValidDraw(d)
    ensures var r := SimulatedRooftop(width, height, b, cosDeg, d);
      && r.id == d.id
      && 0.7 <= r.confidence < 0.98
      && 5.0 <= r.area < 45.0
  {
  }

  /** The first n elements of s, each mapped through f. */
  function MapPrefix<T, U>(f: T --> U, s: seq<T>, n: nat): (r: seq<U>)
    requires n <= |s|
    requires forall k :: 0 <= k < |s| ==> f.requires(s[k])
    ensures |r| == n
  {
    if n == 0 then [] else MapPrefix(f, s, n - 1) + [f(s[n - 1])]
  }

  lemma {:induction false} MapPrefixAt<T, U>(f: T --> U, s: seq<T>, n: nat, k: nat)
    requires n <= |s|
    requires forall m :: 0 <= m < |s| ==> f.requires(s[m])
    requires k < n
    ensures MapPrefix(f, s, n)[k] == f(s[k])
  {
    if k < n - 1 {
      MapPrefixAt(f, s, n - 1, k);
    }
  }

  /** The rooftops a simulation builds from its first n draws, in draw order. */
  function SimulatedDetections(width: int, height: int, b: Bounds, cosDeg: real -> real,
                               draws: seq<PolygonDraw>, n: nat): (rooftops: seq<Rooftop>)
    requires width > 0 && height > 0 && n <= |draws|
    requires forall k :: 0 <= k < |draws| ==> ValidDraw(draws[k])
    ensures |rooftops| == n
  {
    MapPrefix(d requires ValidDraw(d) => SimulatedRooftop(width, height, b, cosDeg, d), draws, n)
  }

  /** The k-th simulated rooftop comes from the k-th draw. */
  lemma SimulatedDetectionAt(width: int, height: int, b: Bounds, cosDeg: real -> real,
                             draws: seq<PolygonDraw>, n: nat, k: nat)
    requires width > 0 && height > 0 && n <= |draws|
    requires forall m :: 0 <= m < |draws| ==> ValidDraw(draws[m])
    requires k < n
    ensures SimulatedDetections(width, height, b, cosDeg, draws, n)[k]
      == SimulatedRooftop(width, height, b, cosDeg, draws[k])
  {
    MapPrefixAt(d requires ValidDraw(d) => SimulatedRooftop(width, height, b, cosDeg, d), draws, n, k);
  }

  /** Over a proper box, every rooftop of a simulation has its whole ring in
      the box, an area in [5, 45) and a confidence in [0.7, 0.98). */
  lemma SimulatedDetectionsInBox(width: int, height: int, b: Bounds, cosDeg: real -> real,
                                 draws: seq<PolygonDraw>)
    requires width > 0 && height > 0 && ValidDraws(draws)
    requires b.west < b.east && b.south < b.north
    ensures var rs := SimulatedDetections(width, height, b, cosDeg, draws, |draws|);
      forall m :: 0 <= m < |rs| ==> DetectedWithin(rs[m], b)
  {
    var rs := SimulatedDetections(width, height, b, cosDeg, draws, |draws|);
    forall m | 0 <= m < |rs|
      ensures DetectedWithin(rs[m], b)
    {
      SimulatedDetectionAt(width, height, b, cosDeg, draws, |draws|, m);
      SimulatedRooftopWithin(width, height, b, cosDeg, draws[m]);
    }
  }

  /** One simulated rooftop over a proper box satisfies `DetectedWithin`. */
  lemma SimulatedRooftopWithin(width: int, height: int, b: Bounds, cosDeg: real -> real, d: PolygonDraw)
    requires width > 0 && height > 0 && ValidDraw(d)
    requires b.west < b.east && b.south < b.north
    ensures DetectedWithin(SimulatedRooftop(width, height, b, cosDeg, d), b)
  {
    SimulatedRingInBox(width, height, b, cosDeg, d);
    SimulatedRooftopFields(width, height, b, cosDeg, d);
  }

  /** The first two steps of `_simulate_detections` for one polygon: clamp
      each drawn pixel into the image, then map the pixels to (lat, lng). */
  method PolygonVertices(width: int, height: int, b: Bounds, points: seq<(int, int)>)
    returns (geoCoords: seq<(real, real)>)
    requires width > 0 && height > 0
    ensures geoCoords == Vertices(width, height, b, points)
  {
    ghost var pixels := ClampedPixels(points, width, height);
    var pixelCoords: seq<(int, int)> := [];
    for i := 0 to |points|
      invariant pixelCoords == pixels[..i]
    {
      var x := Clamp(points[i].0, width);
      var y := Clamp(points[i].1, height);
      assert pixels[..i + 1] == pixels[..i] + [(x, y)];
      pixelCoords := pixelCoords + [(x, y)];
    }
    assert pixelCoords == pixels;

    ghost var vertices := Vertices(width, height, b, points);
    geoCoords := [];
    for i := 0 to |pixelCoords|
      invariant geoCoords == vertices[..i]
    {
      var (x, y) := pixelCoords[i];
      assert vertices[..i + 1] == vertices[..i] + [PixelToGeo(x, y, width, height, b)];
      geoCoords := geoCoords + [PixelToGeo(x, y, width, height, b)];
    }
    assert geoCoords == vertices;
  }

  /** The body of the detection loop of `_simulate_detections`: build the
      polygon's vertices, close the ring, and compute its area and centroid. */
  method SimulateRooftop(width: int, height: int, b: Bounds, cosDeg: real -> real, draw: PolygonDraw)
    returns (rooftop: Rooftop)
    requires width > 0 && height > 0 && ValidDraw(draw)
    ensures rooftop == SimulatedRooftop(width, height, b, cosDeg, draw)
  {
    var geoCoords := PolygonVertices(width, height, b, draw.points);
    geoCoords := geoCoords + [geoCoords[0]];
    var area := CalculateApproxArea(geoCoords, cosDeg);
    var centroid := Centroid(geoCoords);
    rooftop := Rooftop(draw.id, geoCoords, area, draw.confidence, centroid);
  }

  /** `_simulate_detections`: one rooftop per draw, each built by clamping the
      pixel vertices, mapping them to degrees, closing the ring and computing
      its area and centroid. */
  method SimulateDetections(width: int, height: int, b: Bounds, cosDeg: real -> real,
                            draws: seq<PolygonDraw>) returns (rooftops: seq<Rooftop>)
    requires width > 0 && height > 0 && ValidDraws(draws)
    ensures rooftops == SimulatedDetections(width, height, b, cosDeg, draws, |draws|)
  {
    rooftops := [];
    for k := 0 to |draws|
      invariant rooftops == SimulatedDetections(width, height, b, cosDeg, draws, k)
    {
      var rooftop := SimulateRooftop(width, height, b, cosDeg, draws[k]);
      rooftops := rooftops + [rooftop];
    }
  }

  /** The detector. Model loading is a placeholder that always succeeds. */
  class Detector {
    var modelLoaded: bool
    const name: string
    const version: string

    constructor ()
      ensures modelLoaded
      ensures name == "YOLOv10 Rooftop Detector" && version == "1.0"
    {
      name := "YOLOv10 Rooftop Detector";
      version := "1.0";
      modelLoaded := true;
    }

    /** `detect_rooftops`: both branches run the simulation, so the result does
        not depend on whether the model is loaded. The image enters only
        through its width and height; `geoTransform` is not used. */
    method DetectRooftops(width: int, height: int, geoTransform: seq<real>, b: Bounds,
                          cosDeg: real -> real, draws: seq<PolygonDraw>) returns (rooftops: seq<Rooftop>)
      requires width > 0 && height > 0 && ValidDraws(draws)
      ensures rooftops == SimulatedDetections(width, height, b, cosDeg, draws, |draws|)
    {
      if !modelLoaded {
        rooftops := SimulateDetections(width, height, b, cosDeg, draws);
        return;
      }
      rooftops := SimulateDetections(width, height, b, cosDeg, draws);
    }
  }
}
