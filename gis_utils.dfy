/** The GIS helpers (gis_utils.py): the bounds of Portugal, the grid that
    splits a large area into chunks, the pixel-to-degree geo transform, and
    `process_area`, which runs the detector over every chunk and assembles the
    analysis result. The area of a bounding box (a GeoPandas projection) and
    the detector's random draws are inputs. */
module GisUtils {
  import opened JsonValues
  import opened Models
  import opened YoloModel

  /** `get_portugal_bounds`: a proper box, spanning under 6 degrees of latitude
      and 4 of longitude (the extent of mainland Portugal). */
  function PortugalBounds(): (b: Bounds)
    ensures b.south < b.north && b.west < b.east
    ensures b.north - b.south < 6.0 && b.east - b.west < 4.0
  {
    Bounds(42.15, 36.95, -6.18, -9.5)
  }

  // ---------------------------------------------------------------------------
  // Number of divisions: int(ceil(sqrt(ratio)))

  /** n is the ceiling of the square root of r: the least n with n * n >= r. */
  predicate IsCeilSqrt(r: real, n: nat)
  {
    (n * n) as real >= r && (n == 0 || ((n - 1) * (n - 1)) as real < r)
  }

  lemma SquareMonotone(a: nat, b: nat)
    requires a <= b
    ensures a * a <= b * b
  {
    assert a * a <= a * b by {
      MulMonotoneNat(a, b, a);
    }
    assert a * b <= b * b by {
      MulMonotoneNat(a, b, b);
    }
  }

  lemma MulMonotoneNat(a: nat, b: nat, c: nat)
    requires a <= b
    ensures c * a <= c * b
  {
    assert c * b == c * a + c * (b - a);
  }

  /** Searches upward from n for the least square that reaches r. */
  function CeilSqrtFrom(r: real, n: nat): (k: nat)
    requires r >= 0.0
    requires n == 0 || ((n - 1) * (n - 1)) as real < r
    ensures IsCeilSqrt(r, k)
    decreases r.Floor + 1 - n
  {
    if (n * n) as real >= r then n
    else
      assert n <= n * n by {
        if n > 0 {
          MulMonotoneNat(1, n, n);
        }
      }
      CeilSqrtFrom(r, n + 1)
  }

  /** `int(np.ceil(np.sqrt(ratio)))` for a non-negative ratio. */
  function Divisions(ratio: real): (n: nat)
    requires ratio >= 0.0
    ensures IsCeilSqrt(ratio, n)
  {
    CeilSqrtFrom(ratio, 0)
  }

  /** The ceiling square root is the least n whose square reaches r. */
  lemma CeilSqrtIsLeast(r: real, n: nat, m: nat)
    requires IsCeilSqrt(r, n) && (m * m) as real >= r
    ensures n <= m
  {
    if m < n {
      SquareMonotone(m, n - 1);
    }
  }

  /** A ratio above one needs at least a 2 x 2 grid. */
  lemma DivisionsAboveOne(ratio: real)
    requires ratio > 1.0
    ensures Divisions(ratio) >= 2
  {
    var n := Divisions(ratio);
    if n < 2 {
      SquareMonotone(n, 1);
    }
  }

  lemma RatioAboveOne(areaSize: real, maxChunkSize: real)
    requires 0.0 < maxChunkSize < areaSize
    ensures areaSize / maxChunkSize > 1.0
  {
    var q := areaSize / maxChunkSize;
    assert q * maxChunkSize == areaSize;
    MulCancelStrict(1.0, q, maxChunkSize);
  }

  // ---------------------------------------------------------------------------
  // The chunk grid

  /** One of n equal steps across [lo, hi]. */
  function Step(lo: real, hi: real, n: nat): real
    requires n > 0
  {
    (hi - lo) / n as real
  }

  /** The grid line k steps above lo. */
  function GridLine(lo: real, step: real, k: nat): real
  {
    lo + k as real * step
  }

  /** The chunk in row i (from the south) and column j (from the west) of an
      n x n grid over b. */
  function Cell(b: Bounds, n: nat, i: nat, j: nat): Bounds
    requires n > 0
  {
    var latStep := Step(b.south, b.north, n);
    var lngStep := Step(b.west, b.east, n);
    var south := GridLine(b.south, latStep, i);
    var west := GridLine(b.west, lngStep, j);
    Bounds(south + latStep, south, west + lngStep, west)
  }

  /** The first j cells of row i of the grid, west to east. */
  function Row(b: Bounds, n: nat, i: nat, j: nat): (r: seq<Bounds>)
    requires n > 0
    ensures |r| == j
  {
    if j == 0 then [] else Row(b, n, i, j - 1) + [Cell(b, n, i, j - 1)]
  }

  /** The first m rows of the grid, south to north. */
  function Rows(b: Bounds, n: nat, m: nat): (r: seq<Bounds>)
    requires n > 0
    ensures |r| == m * n
  {
    if m == 0 then [] else Rows(b, n, m - 1) + Row(b, n, m - 1, n)
  }

  /** The chunks `split_area_into_chunks` returns for a box of the given area. */
  function Chunks(b: Bounds, areaSize: real, maxChunkSize: real): (chunks: seq<Bounds>)
    requires maxChunkSize > 0.0
  {
    if areaSize <= maxChunkSize then [b]
    else
      RatioAboveOne(areaSize, maxChunkSize);
      var n := Divisions(areaSize / maxChunkSize);
      DivisionsAboveOne(areaSize / maxChunkSize);
      Rows(b, n, n)
  }

  lemma {:induction false} RowAt(b: Bounds, n: nat, i: nat, j: nat, t: nat)
    requires n > 0 && t < j
    ensures Row(b, n, i, j)[t] == Cell(b, n, i, t)
  {
    if t < j - 1 {
      RowAt(b, n, i, j - 1, t);
    }
  }

  /** The chunk at position i * n + j is the cell in row i, column j. */
  lemma {:induction false} RowsAt(b: Bounds, n: nat, m: nat, i: nat, j: nat)
    requires n > 0 && i < m && j < n
    ensures i * n + j < |Rows(b, n, m)|
    ensures Rows(b, n, m)[i * n + j] == Cell(b, n, i, j)
  {
    var init := Rows(b, n, m - 1);
    assert Rows(b, n, m) == init + Row(b, n, m - 1, n);
    if i < m - 1 {
      RowsAt(b, n, m - 1, i, j);
    } else {
      assert i * n == |init|;
      RowAt(b, n, i, n, j);
    }
  }

  /** Every chunk of the grid is some cell. */
  lemma {:induction false} RowsAreCells(b: Bounds, n: nat, m: nat, k: nat)
    requires n > 0 && k < |Rows(b, n, m)|
    ensures exists i: nat, j: nat :: i < m && j < n && Rows(b, n, m)[k] == Cell(b, n, i, j)
  {
    var init := Rows(b, n, m - 1);
    if k < |init| {
      RowsAreCells(b, n, m - 1, k);
    } else {
      var j := k - |init|;
      assert Rows(b, n, m)[k] == Row(b, n, m - 1, n)[j];
      RowAt(b, n, m - 1, n, j);
    }
  }

  lemma StepTimes(lo: real, hi: real, n: nat)
    requires n > 0
    ensures n as real * ((hi - lo) / n as real) == hi - lo
  {
  }

  lemma ScaleStep(i: nat, step: real)
    ensures i as real * step + step == (i + 1) as real * step
  {
  }

  /** The grid starts at the south-west corner of b and ends at its north-east
      corner. */
  lemma GridCorners(b: Bounds, n: nat)
    requires n > 0
    ensures Cell(b, n, 0, 0).south == b.south && Cell(b, n, 0, 0).west == b.west
    ensures Cell(b, n, n - 1, n - 1).north == b.north && Cell(b, n, n - 1, n - 1).east == b.east
  {
    var latStep := (b.north - b.south) / n as real;
    var lngStep := (b.east - b.west) / n as real;
    ScaleStep(n - 1, latStep);
    ScaleStep(n - 1, lngStep);
    StepTimes(b.south, b.north, n);
    StepTimes(b.west, b.east, n);
  }

  /** The chunk list starts at the south-west corner of b and ends at its
      north-east corner, whether b is kept whole or split into a grid. */
  lemma ChunkCorners(b: Bounds, areaSize: real, maxChunkSize: real)
    requires maxChunkSize > 0.0
    ensures var cs := Chunks(b, areaSize, maxChunkSize);
      && |cs| > 0
      && cs[0].south == b.south && cs[0].west == b.west
      && cs[|cs| - 1].north == b.north && cs[|cs| - 1].east == b.east
  {
    if areaSize > maxChunkSize {
      RatioAboveOne(areaSize, maxChunkSize);
      var n := Divisions(areaSize / maxChunkSize);
      DivisionsAboveOne(areaSize / maxChunkSize);
      RowsAt(b, n, n, 0, 0);
      RowsAt(b, n, n, n - 1, n - 1);
      assert (n - 1) * n + (n - 1) == n * n - 1;
      GridCorners(b, n);
    }
  }

  /** Neighbouring cells share their edges: the grid has no gaps or overlaps
      between rows or between columns. */
  lemma GridAdjacent(b: Bounds, n: nat, i: nat, j: nat)
    requires n > 0
    ensures Cell(b, n, i, j).north == Cell(b, n, i + 1, j).south
    ensures Cell(b, n, i, j).east == Cell(b, n, i, j + 1).west
  {
    ScaleStep(i, Step(b.south, b.north, n));
    ScaleStep(j, Step(b.west, b.east, n));
  }

  /** All cells have the same extent, 1/n of b in each direction. */
  lemma GridUniform(b: Bounds, n: nat, i: nat, j: nat)
    requires n > 0
    ensures Cell(b, n, i, j).north - Cell(b, n, i, j).south == (b.north - b.south) / n as real
    ensures Cell(b, n, i, j).east - Cell(b, n, i, j).west == (b.east - b.west) / n as real
  {
  }

  /** A box with positive extent in both directions. */
  predicate Proper(b: Bounds)
  {
    b.south < b.north && b.west < b.east
  }

  /** c is a proper box inside b. */
  predicate SubBox(c: Bounds, b: Bounds)
  {
    Proper(c) && b.south <= c.south && c.north <= b.north && b.west <= c.west && c.east <= b.east
  }

  lemma StepWithin(lo: real, hi: real, n: nat, i: nat)
    requires n > 0 && i < n && lo < hi
    ensures var step := (hi - lo) / n as real;
      step > 0.0 && lo <= lo + i as real * step && lo + i as real * step + step <= hi
  {
    var step := (hi - lo) / n as real;
    assert step * n as real == hi - lo;
    MulCancelStrict(0.0, step, n as real);
    MulMonotone(0.0, i as real, step);
    MulMonotone((i + 1) as real, n as real, step);
    ScaleStep(i, step);
  }

  /** Every cell of the grid over a proper box is a proper box inside it. */
  lemma CellWithin(b: Bounds, n: nat, i: nat, j: nat)
    requires n > 0 && i < n && j < n && Proper(b)
    ensures SubBox(Cell(b, n, i, j), b)
  {
    StepWithin(b.south, b.north, n, i);
    StepWithin(b.west, b.east, n, j);
  }

  /** Every chunk of a proper box is a proper box inside it. */
  lemma ChunksWithin(b: Bounds, areaSize: real, maxChunkSize: real)
    requires maxChunkSize > 0.0 && Proper(b)
    ensures forall k :: 0 <= k < |Chunks(b, areaSize, maxChunkSize)| ==>
      SubBox(Chunks(b, areaSize, maxChunkSize)[k], b)
  {
    if areaSize > maxChunkSize {
      RatioAboveOne(areaSize, maxChunkSize);
      var n := Divisions(areaSize / maxChunkSize);
      DivisionsAboveOne(areaSize / maxChunkSize);
      forall k | 0 <= k < |Rows(b, n, n)|
        ensures SubBox(Rows(b, n, n)[k], b)
      {
        RowsAreCells(b, n, n, k);
        var i: nat, j: nat :| i < n && j < n && Rows(b, n, n)[k] == Cell(b, n, i, j);
        CellWithin(b, n, i, j);
      }
    }
  }

  /** A box no larger than the chunk size is kept whole; a larger one becomes an
      n x n grid where n is the least count whose square covers the area ratio
      (so n >= 2). */
  lemma ChunkCount(b: Bounds, areaSize: real, maxChunkSize: real)
    requires maxChunkSize > 0.0
    ensures areaSize <= maxChunkSize ==> Chunks(b, areaSize, maxChunkSize) == [b]
    ensures areaSize > maxChunkSize ==>
      var n := Divisions(areaSize / maxChunkSize);
      && n >= 2
      && |Chunks(b, areaSize, maxChunkSize)| == n * n
      && (n * n) as real >= areaSize / maxChunkSize
      && ((n - 1) * (n - 1)) as real < areaSize / maxChunkSize
  {
    if areaSize > maxChunkSize {
      RatioAboveOne(areaSize, maxChunkSize);
      DivisionsAboveOne(areaSize / maxChunkSize);
    }
  }

  /** `split_area_into_chunks`: the box itself when its area is within the
      chunk size, otherwise an n x n grid built row by row, south to north and
      west to east within each row. */
  method SplitAreaIntoChunks(b: Bounds, maxChunkSize: real, areaOf: Bounds -> real)
    returns (chunks: seq<Bounds>)
    requires maxChunkSize > 0.0
    ensures chunks == Chunks(b, areaOf(b), maxChunkSize)
  {
    var areaSize := areaOf(b);
    if areaSize <= maxChunkSize {
      return [b];
    }
    RatioAboveOne(areaSize, maxChunkSize);
    DivisionsAboveOne(areaSize / maxChunkSize);
    var numDivisions := Divisions(areaSize / maxChunkSize);
    assert numDivisions >= 2;

    var latStep := Step(b.south, b.north, numDivisions);
    var lngStep := Step(b.west, b.east, numDivisions);

    chunks := [];
    for i := 0 to numDivisions
      invariant chunks == Rows(b, numDivisions, i)
    {
      var south := GridLine(b.south, latStep, i);
      var north := south + latStep;
      ghost var done := chunks;
      for j := 0 to numDivisions
        invariant chunks == done + Row(b, numDivisions, i, j)
      {
        var west := GridLine(b.west, lngStep, j);
        var east := west + lngStep;
        var chunkBounds := Bounds(north, south, east, west);
        assert chunkBounds == Cell(b, numDivisions, i, j);
        chunks := chunks + [chunkBounds];
      }
    }
  }

  // ---------------------------------------------------------------------------
  // Geo transform

  /** `calculate_geo_transform`: [top-left lng, pixel width in degrees, 0,
      top-left lat, 0, minus the pixel height in degrees]. */
  function GeoTransform(b: Bounds, width: int, height: int): (t: seq<real>)
    requires width > 0 && height > 0
    ensures |t| == 6
  {
    var xRes := (b.east - b.west) / width as real;
    var yRes := (b.north - b.south) / height as real;
    [b.west, xRes, 0.0, b.north, 0.0, -yRes]
  }

  /** The transform maps the image's far corner (width, height) to the box's
      south-east corner. */
  lemma GeoTransformCorners(b: Bounds, width: int, height: int)
    requires width > 0 && height > 0
    ensures var t := GeoTransform(b, width, height);
      t[0] + width as real * t[1] == b.east && t[3] + height as real * t[5] == b.south
  {
    StepTimes(b.west, b.east, width);
    StepTimes(b.south, b.north, height);
  }

  lemma DivThenMul(a: real, c: real, d: real)
    requires c != 0.0
    ensures (a / c) * d == a * (d / c)
  {
    var p, q := a / c, d / c;
    assert p * c == a;
    assert q * c == d;
    assert p * d == p * (q * c);
    assert p * (q * c) == (p * c) * q;
  }

  /** The (lat, lng) a geo transform assigns to pixel (x, y):
      lng = t[0] + x * t[1] and lat = t[3] + y * t[5]. */
  function TransformPixel(t: seq<real>, x: int, y: int): (real, real)
    requires |t| == 6
  {
    (t[3] + y as real * t[5], t[0] + x as real * t[1])
  }

  /** The detector's pixel-to-degree mapping agrees with the geo transform
      `calculate_geo_transform` builds for the same box and image. */
  lemma GeoTransformMatchesPixelToGeo(b: Bounds, width: int, height: int, x: int, y: int)
    requires width > 0 && height > 0
    ensures PixelToGeo(x, y, width, height, b) == TransformPixel(GeoTransform(b, width, height), x, y)
  {
    var p := PixelToGeo(x, y, width, height, b);
    var q := TransformPixel(GeoTransform(b, width, height), x, y);
    assert p.1 == q.1 by {
      DivThenMul(x as real, width as real, b.east - b.west);
    }
    assert p.0 == q.0 by {
      var yRes := (b.north - b.south) / height as real;
      DivThenMul(y as real, height as real, b.north - b.south);
      assert y as real * -yRes == -(y as real * yRes);
    }
  }

  // ---------------------------------------------------------------------------
  // process_area

  /** The side of the square mock image `generate_mock_image` returns. */
  const ImageSize: int := 512

  /** The default `max_chunk_size` of `split_area_into_chunks`. */
  const MaxChunkSize: real := 1.0

  /** What `process_area` returns: an error for an oversized area, or the
      analysis result. */
  datatype Outcome =
    | TooLarge(areaSize: real, maxArea: real)
    | Analysed(result: AnalysisResult)

  const TooLargeMessage: string := "Selected area exceeds maximum allowed area"

  /** The dictionary `process_area` returns for an outcome. */
  function OutcomeToDict(o: Outcome): Json
  {
    match o
    case TooLarge(areaSize, maxArea) =>
      JObj([("error", JStr(TooLargeMessage)), ("area_size", JNum(areaSize)), ("max_area", JNum(maxArea))])
    case Analysed(r) => AnalysisResultToDict(r)
  }

  /** The returned dictionary carries an "error" key exactly when the area was
      too large. */
  lemma ErrorKeyIffTooLarge(o: Outcome)
    ensures Get(OutcomeToDict(o), "error").Some? <==> o.TooLarge?
  {
    if o.Analysed? {
      var fields := OutcomeToDict(o).fields;
      LookupMissing(fields, "error");
    }
  }


  /** A detector as `process_area` uses it: its k-th call, on the image of
      chunk c, returns detect(k, c). */
  type ChunkDetector = (nat, Bounds) --> seq<Rooftop>

  /** A detector that can be called on every chunk. */
  ghost predicate Total(detect: ChunkDetector)
  {
    forall k: nat, c :: detect.requires(k, c)
  }

  /** The rooftops found in the first n chunks, chunk by chunk. */
  function Collect(detect: ChunkDetector, chunks: seq<Bounds>, n: nat): seq<Rooftop>
    requires n <= |chunks| && Total(detect)
  {
    if n == 0 then [] else Collect(detect, chunks, n - 1) + detect(n - 1, chunks[n - 1])
  }

  /** The result `process_area` computes with the given detector. */
  function ProcessAreaResult(b: Bounds, maxArea: real, areaOf: Bounds -> real,
                             detect: ChunkDetector): Outcome
    requires Total(detect)
  {
    var areaSize := areaOf(b);
    if areaSize > maxArea then TooLarge(areaSize, maxArea)
    else
      var chunks := Chunks(b, areaSize, MaxChunkSize);
      var rooftops := Collect(detect, chunks, |chunks|);
      Analysed(AnalysisResult(rooftops, Sum(Areas(rooftops)), |rooftops|, b, maxArea))
  }

  /** The simulated detector on a 512 x 512 image of each chunk, with
      `draws(k)` the random draws of its k-th call. */
  function SimulatedDetector(cosDeg: real -> real, draws: nat -> seq<PolygonDraw>): (detect: ChunkDetector)
    requires forall k: nat :: ValidDraws(draws(k))
    ensures Total(detect)
  {
    (k: nat, c: Bounds) requires ValidDraws(draws(k)) =>
      SimulatedDetections(ImageSize, ImageSize, c, cosDeg, draws(k), |draws(k)|)
  }

  /** `process_area` with the simulated detector: reject an area larger than
      `maxArea`; otherwise split it into chunks, run the detector on a
      512 x 512 image of each chunk, and collect the rooftops with their
      total area and count. */
  method ProcessArea(b: Bounds, maxArea: real, detector: Detector, areaOf: Bounds -> real,
                     cosDeg: real -> real, draws: nat -> seq<PolygonDraw>) returns (outcome: Outcome)
    requires forall k: nat :: ValidDraws(draws(k))
    ensures outcome == ProcessAreaResult(b, maxArea, areaOf, SimulatedDetector(cosDeg, draws))
    ensures outcome.TooLarge? <==> areaOf(b) > maxArea
    ensures outcome.TooLarge? ==> outcome == TooLarge(areaOf(b), maxArea)
  {
    var areaSize := areaOf(b);
    if areaSize > maxArea {
      return TooLarge(areaSize, maxArea);
    }

    ghost var detect := SimulatedDetector(cosDeg, draws);
    var chunks := SplitAreaIntoChunks(b, MaxChunkSize, areaOf);
    var allRooftops: seq<Rooftop> := [];
    for k := 0 to |chunks|
      invariant allRooftops == Collect(detect, chunks, k)
    {
      var chunkBounds := chunks[k];
      var width, height := ImageSize, ImageSize;
      var geoTransform := GeoTransform(chunkBounds, width, height);
      var chunkRooftops := detector.DetectRooftops(width, height, geoTransform, chunkBounds, cosDeg, draws(k));
      assert chunkRooftops == detect(k, chunkBounds);
      allRooftops := allRooftops + chunkRooftops;
    }

    var totalArea := Sum(Areas(allRooftops));
    outcome := Analysed(AnalysisResult(allRooftops, totalArea, |allRooftops|, b, maxArea));
  }

  // ---------------------------------------------------------------------------
  // What process_area guarantees

  /** Every call finds between 3 and 8 rooftops. */
  ghost predicate FindsThreeToEight(detect: ChunkDetector)
    requires Total(detect)
  {
    forall k: nat, c :: 3 <= |detect(k, c)| <= 8
  }

  /** On a proper box, every rooftop found lies inside the box. */
  ghost predicate FindsWithin(detect: ChunkDetector)
    requires Total(detect)
  {
    forall k: nat, c :: Proper(c) ==>
      forall m :: 0 <= m < |detect(k, c)| ==> DetectedWithin(detect(k, c)[m], c)
  }

  /** The simulated detector finds 3 to 8 rooftops per call, each inside the
      chunk it was run on. */
  lemma SimulatedDetectorSound(cosDeg: real -> real, draws: nat -> seq<PolygonDraw>)
    requires forall k: nat :: ValidDraws(draws(k))
    ensures FindsThreeToEight(SimulatedDetector(cosDeg, draws))
    ensures FindsWithin(SimulatedDetector(cosDeg, draws))
  {
    var detect := SimulatedDetector(cosDeg, draws);
    forall k: nat, c
      ensures 3 <= |detect(k, c)| <= 8
    {
      assert ValidDraws(draws(k));
    }
    forall k: nat, c | Proper(c)
      ensures forall m :: 0 <= m < |detect(k, c)| ==> DetectedWithin(detect(k, c)[m], c)
    {
      var ds := draws(k);
      assert ValidDraws(ds);
      var rs := SimulatedDetections(ImageSize, ImageSize, c, cosDeg, ds, |ds|);
      assert detect(k, c) == rs;
      SimulatedDetectionsInBox(ImageSize, ImageSize, c, cosDeg, ds);
    }
  }

  /** Each processed chunk adds the area of its own detections to the running
      total: the total area is the sum, chunk by chunk, of the chunks' areas. */
  lemma CollectArea(detect: ChunkDetector, chunks: seq<Bounds>, n: nat)
    requires 0 < n <= |chunks| && Total(detect)
    ensures Sum(Areas(Collect(detect, chunks, n)))
      == Sum(Areas(Collect(detect, chunks, n - 1))) + Sum(Areas(detect(n - 1, chunks[n - 1])))
  {
    var before, found := Collect(detect, chunks, n - 1), detect(n - 1, chunks[n - 1]);
    assert Areas(before + found) == Areas(before) + Areas(found);
    SumAppend(Areas(before), Areas(found));
  }

  /** The rooftops are gathered in chunk order: those found in the first m
      chunks are a prefix of those found in the first n >= m. */
  lemma {:induction false} CollectPrefix(detect: ChunkDetector, chunks: seq<Bounds>, m: nat, n: nat)
    requires m <= n <= |chunks| && Total(detect)
    ensures |Collect(detect, chunks, m)| <= |Collect(detect, chunks, n)|
    ensures Collect(detect, chunks, n)[..|Collect(detect, chunks, m)|] == Collect(detect, chunks, m)
  {
    if m < n {
      CollectPrefix(detect, chunks, m, n - 1);
      var init := Collect(detect, chunks, n - 1);
      assert Collect(detect, chunks, n) == init + detect(n - 1, chunks[n - 1]);
      assert Collect(detect, chunks, n)[..|init|] == init;
    } else {
      assert Collect(detect, chunks, n)[..|Collect(detect, chunks, n)|] == Collect(detect, chunks, n);
    }
  }

  lemma {:induction false} CollectCount(detect: ChunkDetector, chunks: seq<Bounds>, n: nat)
    requires n <= |chunks| && Total(detect) && FindsThreeToEight(detect)
    ensures 3 * n <= |Collect(detect, chunks, n)| <= 8 * n
  {
    if n > 0 {
      CollectCount(detect, chunks, n - 1);
      assert 3 <= |detect(n - 1, chunks[n - 1])| <= 8;
    }
  }

  lemma {:induction false} CollectWithin(detect: ChunkDetector, b: Bounds, chunks: seq<Bounds>, n: nat)
    requires n <= |chunks| && Total(detect) && FindsWithin(detect)
    requires forall k :: 0 <= k < |chunks| ==> SubBox(chunks[k], b)
    ensures forall m :: 0 <= m < |Collect(detect, chunks, n)| ==>
      DetectedWithin(Collect(detect, chunks, n)[m], b)
  {
    if n > 0 {
      CollectWithin(detect, b, chunks, n - 1);
      var init := Collect(detect, chunks, n - 1);
      assert forall m :: 0 <= m < |init| ==> DetectedWithin(init[m], b);
      var c := chunks[n - 1];
      var last := detect(n - 1, c);
      assert SubBox(c, b);
      var rs := Collect(detect, chunks, n);
      assert rs == init + last;
      forall m | 0 <= m < |rs|
        ensures DetectedWithin(rs[m], b)
      {
        if m < |init| {
          assert rs[m] == init[m];
          assert DetectedWithin(init[m], b);
        } else {
          var r := last[m - |init|];
          assert rs[m] == r;
          assert Proper(c);
          assert DetectedWithin(r, c);
          forall i | 0 <= i < |r.coordinates|
            ensures InBox(r.coordinates[i], b)
          {
            assert InBox(r.coordinates[i], c);
          }
        }
      }
    }
  }

  /** Over a proper box, with a detector that keeps to the chunk it is given,
      every rooftop `process_area` reports lies inside the requested box, has
      an area in [5, 45) and a confidence in [0.7, 0.98). */
  lemma AnalysedRooftopsWithin(b: Bounds, maxArea: real, areaOf: Bounds -> real, detect: ChunkDetector)
    requires Total(detect) && FindsWithin(detect)
    requires Proper(b)
    ensures var o := ProcessAreaResult(b, maxArea, areaOf, detect);
      o.Analysed? ==> forall m :: 0 <= m < |o.result.rooftops| ==> DetectedWithin(o.result.rooftops[m], b)
  {
    var chunks := Chunks(b, areaOf(b), MaxChunkSize);
    ChunksWithin(b, areaOf(b), MaxChunkSize);
    CollectWithin(detect, b, chunks, |chunks|);
    var o := ProcessAreaResult(b, maxArea, areaOf, detect);
    if o.Analysed? {
      assert o.result.rooftops == Collect(detect, chunks, |chunks|);
    }
  }

  /** For any detector, an admitted area's result holds the detections of all
      chunks, collected in chunk order; its count is their number, its total
      area the sum of their areas and its capacity 0.15 of that total; it keeps
      the requested bounds and limit. */
  lemma AnalysedTotals(b: Bounds, maxArea: real, areaOf: Bounds -> real, detect: ChunkDetector)
    requires Total(detect)
    ensures var o := ProcessAreaResult(b, maxArea, areaOf, detect);
      var chunks := Chunks(b, areaOf(b), MaxChunkSize);
      o.Analysed? ==>
        && o.result.rooftops == Collect(detect, chunks, |chunks|)
        && o.result.count == |o.result.rooftops|
        && o.result.totalArea == Sum(Areas(o.result.rooftops))
        && StatisticsOf(Areas(o.result.rooftops)).potentialCapacity == 0.15 * o.result.totalArea
        && o.result.bounds == b && o.result.maxAreaConstraint == maxArea
  {
  }

  /** With 3 to 8 detections per call, the reported count lies between 3 and 8
      per chunk. */
  lemma AnalysedCounts(b: Bounds, maxArea: real, areaOf: Bounds -> real, detect: ChunkDetector)
    requires Total(detect) && FindsThreeToEight(detect)
    ensures var o := ProcessAreaResult(b, maxArea, areaOf, detect);
      var chunkCount := |Chunks(b, areaOf(b), MaxChunkSize)|;
      o.Analysed? ==>
        && o.result.count == |o.result.rooftops|
        && 3 * chunkCount <= o.result.count <= 8 * chunkCount
  {
    var chunks := Chunks(b, areaOf(b), MaxChunkSize);
    CollectCount(detect, chunks, |chunks|);
  }

  /** When the detector keeps its detections, with areas in [5, 45), inside the
      chunk it ran on, and the box is proper, the statistics of an analysis
      never fill the 0-5 m² and >45 m² buckets, and the smallest and largest
      areas lie in [5, 45). */
  lemma AnalysedStatistics(b: Bounds, maxArea: real, areaOf: Bounds -> real, detect: ChunkDetector)
    requires Total(detect) && FindsWithin(detect)
    requires Proper(b)
    ensures var o := ProcessAreaResult(b, maxArea, areaOf, detect);
      o.Analysed? ==>
        var areas := Areas(o.result.rooftops);
        && CountIn(areas, 0) == 0
        && CountIn(areas, NumBuckets - 1) == 0
        && (|areas| > 0 ==> 5.0 <= StatisticsOf(areas).minArea && StatisticsOf(areas).maxArea < 45.0)
  {
    var o := ProcessAreaResult(b, maxArea, areaOf, detect);
    if o.Analysed? {
      AnalysedRooftopsWithin(b, maxArea, areaOf, detect);
      var areas := Areas(o.result.rooftops);
      assert forall i :: 0 <= i < |areas| ==> 5.0 <= areas[i] < 45.0 by {
        forall i | 0 <= i < |areas|
          ensures 5.0 <= areas[i] < 45.0
        {
          assert DetectedWithin(o.result.rooftops[i], b);
        }
      }
      OuterBucketsEmpty(areas);
    }
  }

  /** What an analysis of a proper box by the simulated detector guarantees:
      between 3 and 8 rooftops per chunk, all inside the requested box, with
      areas in [5, 45) and confidences in [0.7, 0.98). */
  lemma SimulatedAnalysis(b: Bounds, maxArea: real, areaOf: Bounds -> real,
                          cosDeg: real -> real, draws: nat -> seq<PolygonDraw>)
    requires forall k: nat :: ValidDraws(draws(k))
    requires Proper(b)
    ensures var o := ProcessAreaResult(b, maxArea, areaOf, SimulatedDetector(cosDeg, draws));
      var chunkCount := |Chunks(b, areaOf(b), MaxChunkSize)|;
      o.Analysed? ==>
        && 3 * chunkCount <= o.result.count <= 8 * chunkCount
        && forall m :: 0 <= m < |o.result.rooftops| ==> DetectedWithin(o.result.rooftops[m], b)
  {
    var detect := SimulatedDetector(cosDeg, draws);
    SimulatedDetectorSound(cosDeg, draws);
    AnalysedCounts(b, maxArea, areaOf, detect);
    AnalysedRooftopsWithin(b, maxArea, areaOf, detect);
  }
}
