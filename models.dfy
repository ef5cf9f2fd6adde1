/** The records of the backend (models.py): rooftops, analysis results and
    their statistics, and the two database rows built from them. */
module Models {
  import opened JsonValues

  /** A detected empty rooftop. `coordinates` is a closed ring of (lat, lng)
      points, `area` is in square metres and `centroid` is (lat, lng). */
  datatype Rooftop = Rooftop(
    id: string,
    coordinates: seq<(real, real)>,
    area: real,
    confidence: real,
    centroid: (real, real))

  /** A north/south/east/west box in degrees (the source's `bounds` dict). */
  datatype Bounds = Bounds(north: real, south: real, east: real, west: real)

  datatype AnalysisResult = AnalysisResult(
    rooftops: seq<Rooftop>,
    totalArea: real,
    count: int,
    bounds: Bounds,
    maxAreaConstraint: real)

  /** One entry of `area_distribution`: a label such as "5-10 m²" and a count. */
  datatype BucketCount = BucketCount(range: string, count: nat)

  datatype Statistics = Statistics(
    minArea: real,
    maxArea: real,
    avgArea: real,
    potentialCapacity: real,
    areaDistribution: seq<BucketCount>)

  // ---------------------------------------------------------------------------
  // Sums, minimum and maximum over the areas (Python's sum, min, max)

  function Areas(rooftops: seq<Rooftop>): (areas: seq<real>)
    ensures |areas| == |rooftops|
    ensures forall i :: 0 <= i < |rooftops| ==> areas[i] == rooftops[i].area
  {
    seq(|rooftops|, i requires 0 <= i < |rooftops| => rooftops[i].area)
  }

  /** Left-to-right sum, as Python's `sum`. */
  function Sum(s: seq<real>): real
  {
    if |s| == 0 then 0.0 else Sum(s[..|s| - 1]) + s[|s| - 1]
  }

  function MinOf(s: seq<real>): (m: real)
    requires |s| > 0
    ensures m in s
    ensures forall i :: 0 <= i < |s| ==> m <= s[i]
  {
    if |s| == 1 then s[0]
    else
      var m := MinOf(s[1..]);
      assert forall i :: 1 <= i < |s| ==> s[i] == s[1..][i - 1];
      if s[0] <= m then s[0] else m
  }

  function MaxOf(s: seq<real>): (m: real)
    requires |s| > 0
    ensures m in s
    ensures forall i :: 0 <= i < |s| ==> s[i] <= m
  {
    if |s| == 1 then s[0]
    else
      var m := MaxOf(s[1..]);
      assert forall i :: 1 <= i < |s| ==> s[i] == s[1..][i - 1];
      if s[0] >= m then s[0] else m
  }

  lemma {:induction false} SumAppend(s: seq<real>, t: seq<real>)
    ensures Sum(s + t) == Sum(s) + Sum(t)
    decreases |t|
  {
    if |t| == 0 {
      assert s + t == s;
    } else {
      assert (s + t)[..|s + t| - 1] == s + t[..|t| - 1];
      SumAppend(s, t[..|t| - 1]);
    }
  }

  /** Every element in [lo, hi] puts the sum in [n*lo, n*hi]. */
  lemma {:induction false} SumBounds(s: seq<real>, lo: real, hi: real)
    requires forall i :: 0 <= i < |s| ==> lo <= s[i] <= hi
    ensures |s| as real * lo <= Sum(s) <= |s| as real * hi
  {
    if |s| > 0 {
      var init := s[..|s| - 1];
      SumBounds(init, lo, hi);
      assert |s| as real * lo == |init| as real * lo + lo;
      assert |s| as real * hi == |init| as real * hi + hi;
    }
  }

  /** The minimum and maximum are areas of the list and bound every area, the
      mean lies between them, and the capacity is 0.15 kW per square metre. */
  lemma MinAvgMax(areas: seq<real>)
    requires |areas| > 0
    ensures var st := StatisticsOf(areas);
      && st.minArea in areas && st.maxArea in areas
      && (forall i :: 0 <= i < |areas| ==> st.minArea <= areas[i] <= st.maxArea)
      && st.minArea <= st.avgArea <= st.maxArea
      && st.potentialCapacity == 0.15 * Sum(areas)
  {
    var lo, hi := MinOf(areas), MaxOf(areas);
    MeanBetween(areas, lo, hi);
    var st := StatisticsOf(areas);
    assert st.minArea == lo && st.maxArea == hi && st.avgArea == Sum(areas) / |areas| as real;
  }

  /** Values all in [lo, hi] have their mean in [lo, hi]. */
  lemma MeanBetween(s: seq<real>, lo: real, hi: real)
    requires |s| > 0
    requires forall i :: 0 <= i < |s| ==> lo <= s[i] <= hi
    ensures lo <= Sum(s) / |s| as real <= hi
  {
    SumBounds(s, lo, hi);
    DivBetween(Sum(s), |s| as real, lo, hi);
  }

  lemma DivBetween(total: real, n: real, lo: real, hi: real)
    requires n > 0.0 && n * lo <= total <= n * hi
    ensures lo <= total / n <= hi
  {
    var m := total / n;
    assert (m - lo) * n == total - n * lo;
    assert (hi - m) * n == n * hi - total;
    NonNegativeFactor(m - lo, n);
    NonNegativeFactor(hi - m, n);
  }

  lemma NonNegativeFactor(x: real, n: real)
    requires n > 0.0 && x * n >= 0.0
    ensures x >= 0.0
  {
  }

  // ---------------------------------------------------------------------------
  // The area histogram

  /** Bucket edges 0, 5, ..., 50 square metres: ten buckets, edge k is 5k. */
  const NumBuckets: nat := 10

  function Edge(k: nat): nat
  {
    5 * k
  }

  /** The bucket an area is counted in: its five-metre band, the last bucket
      for every area of 45 or more, and none for a negative area. */
  function BucketOf(a: real): (k: Option<nat>)
    ensures k.None? <==> a < 0.0
    ensures k.Some? ==> k.value < NumBuckets
  {
    if a < 0.0 then None
    else if a >= 45.0 then Some(9)
    else
      var f := (a / 5.0).Floor;
      assert 0 <= f < 9;
      Some(f)
  }

  /** The bucket search of the source, stated in its own terms: an area is in
      bucket k exactly when it lies in [edge k, edge k+1), or when k is the
      last bucket and the area is at least the last edge. So every non-negative
      area is in exactly one bucket. */
  lemma BucketOfMatchesEdges(a: real)
    ensures forall k :: 0 <= k < NumBuckets ==>
      (BucketOf(a) == Some(k) <==>
        (Edge(k) as real <= a < Edge(k + 1) as real
         || (k == NumBuckets - 1 && a >= Edge(NumBuckets) as real)))
    ensures BucketOf(a).Some? && a < Edge(NumBuckets) as real ==>
      Edge(BucketOf(a).value) as real <= a < Edge(BucketOf(a).value + 1) as real
  {
    if a < 0.0 {
      assert BucketOf(a) == None;
    } else if a >= 45.0 {
      assert BucketOf(a) == Some(9);
    } else {
      var f := (a / 5.0).Floor;
      assert BucketOf(a) == Some(f);
      assert f as real <= a / 5.0 < f as real + 1.0;
      assert 5.0 * f as real <= a < 5.0 * f as real + 5.0;
      forall k | 0 <= k < NumBuckets
        ensures Edge(k) as real <= a < Edge(k + 1) as real <==> k == f
      {
        assert Edge(k) as real == 5.0 * k as real;
        assert Edge(k + 1) as real == 5.0 * k as real + 5.0;
      }
    }
  }

  /** How many of the areas fall into bucket k. */
  function CountIn(areas: seq<real>, k: nat): nat
  {
    if |areas| == 0 then 0
    else CountIn(areas[..|areas| - 1], k) + (if BucketOf(areas[|areas| - 1]) == Some(k) then 1 else 0)
  }

  /** The bucket counts, in ascending bucket order. */
  function Histogram(areas: seq<real>): (h: seq<nat>)
    ensures |h| == NumBuckets
  {
    seq(NumBuckets, k requires 0 <= k < NumBuckets => CountIn(areas, k))
  }

  /** Counting one more area increments its bucket and no other. */
  lemma HistogramSnoc(s: seq<real>, a: real)
    ensures BucketOf(a).None? ==> Histogram(s + [a]) == Histogram(s)
    ensures BucketOf(a).Some? ==>
      Histogram(s + [a]) == Histogram(s)[BucketOf(a).value := Histogram(s)[BucketOf(a).value] + 1]
  {
    assert (s + [a])[..|s + [a]| - 1] == s;
  }

  lemma {:induction false} CountInAppend(s: seq<real>, t: seq<real>, k: nat)
    ensures CountIn(s + t, k) == CountIn(s, k) + CountIn(t, k)
    decreases |t|
  {
    if |t| == 0 {
      assert s + t == s;
    } else {
      assert (s + t)[..|s + t| - 1] == s + t[..|t| - 1];
      CountInAppend(s, t[..|t| - 1], k);
    }
  }

  /** The count of a bucket does not depend on the order of the areas. */
  lemma {:induction false} CountInPermutationInvariant(a: seq<real>, b: seq<real>, k: nat)
    requires multiset(a) == multiset(b)
    ensures CountIn(a, k) == CountIn(b, k)
    decreases |a|
  {
    if |a| == 0 {
      assert |b| == |multiset(b)| == 0;
    } else {
      var x := a[|a| - 1];
      var a' := a[..|a| - 1];
      assert a == a' + [x];
      assert x in multiset(b);
      var i :| 0 <= i < |b| && b[i] == x;
      var b' := b[..i] + b[i + 1..];
      assert b == b[..i] + [x] + b[i + 1..];
      assert multiset(b') == multiset(b) - multiset{x};
      assert multiset(a') == multiset(a) - multiset{x};
      CountInPermutationInvariant(a', b', k);
      CountInAppend(a', [x], k);
      CountInAppend(b[..i], [x], k);
      CountInAppend(b[..i] + [x], b[i + 1..], k);
      CountInAppend(b[..i], b[i + 1..], k);
    }
  }

  /** The counts do not depend on the order of the rooftops. */
  lemma HistogramPermutationInvariant(a: seq<real>, b: seq<real>)
    requires multiset(a) == multiset(b)
    ensures Histogram(a) == Histogram(b)
  {
    forall k | 0 <= k < NumBuckets
      ensures CountIn(a, k) == CountIn(b, k)
    {
      CountInPermutationInvariant(a, b, k);
    }
  }

  /** Number of non-negative areas. */
  function CountNonNegative(areas: seq<real>): nat
  {
    if |areas| == 0 then 0
    else CountNonNegative(areas[..|areas| - 1]) + (if areas[|areas| - 1] >= 0.0 then 1 else 0)
  }

  /** Sum of the first m bucket counts. */
  function CountBelow(areas: seq<real>, m: nat): nat
  {
    if m == 0 then 0 else CountBelow(areas, m - 1) + CountIn(areas, m - 1)
  }

  lemma {:induction false} CountBelowSnoc(s: seq<real>, a: real, m: nat)
    ensures CountBelow(s + [a], m) ==
      CountBelow(s, m) + (if BucketOf(a).Some? && BucketOf(a).value < m then 1 else 0)
  {
    assert (s + [a])[..|s + [a]| - 1] == s;
    if m > 0 {
      CountBelowSnoc(s, a, m - 1);
    }
  }

  lemma {:induction false} CountBelowEmpty(m: nat)
    ensures CountBelow([], m) == 0
  {
    if m > 0 {
      CountBelowEmpty(m - 1);
    }
  }

  /** Count conservation: the bucket counts add up to the number of
      non-negative areas; negative areas are counted nowhere. */
  lemma {:induction false} HistogramConservation(areas: seq<real>)
    ensures CountBelow(areas, NumBuckets) == CountNonNegative(areas)
    decreases |areas|
  {
    if |areas| == 0 {
      CountBelowEmpty(NumBuckets);
    } else {
      var s := areas[..|areas| - 1];
      var a := areas[|areas| - 1];
      assert areas == s + [a];
      HistogramConservation(s);
      CountBelowSnoc(s, a, NumBuckets);
      assert CountBelow(areas, NumBuckets) == CountBelow(s, NumBuckets) + (if a >= 0.0 then 1 else 0);
      assert CountNonNegative(areas) == CountNonNegative(s) + (if a >= 0.0 then 1 else 0);
    }
  }

  /** Number of areas that are at least t. */
  function CountAtLeast(areas: seq<real>, t: real): nat
  {
    if |areas| == 0 then 0
    else CountAtLeast(areas[..|areas| - 1], t) + (if areas[|areas| - 1] >= t then 1 else 0)
  }

  /** The last bucket ("> 45") counts exactly the areas of 45 or more,
      those of 50 and more included. */
  lemma {:induction false} LastBucketCountsFrom45(areas: seq<real>)
    ensures CountIn(areas, NumBuckets - 1) == CountAtLeast(areas, 45.0)
    decreases |areas|
  {
    if |areas| > 0 {
      LastBucketCountsFrom45(areas[..|areas| - 1]);
      var a := areas[|areas| - 1];
      BucketOfMatchesEdges(a);
    }
  }

  /** Areas all in [5, 45) leave the first and the last bucket empty. */
  lemma {:induction false} OuterBucketsEmpty(areas: seq<real>)
    requires forall i :: 0 <= i < |areas| ==> 5.0 <= areas[i] < 45.0
    ensures CountIn(areas, 0) == 0 && CountIn(areas, NumBuckets - 1) == 0
    decreases |areas|
  {
    if |areas| > 0 {
      OuterBucketsEmpty(areas[..|areas| - 1]);
      BucketOfMatchesEdges(areas[|areas| - 1]);
    }
  }

  // ---------------------------------------------------------------------------
  // Labels

  function DigitChar(d: nat): char
    requires d < 10
  {
    ('0' as int + d) as char
  }

  /** Decimal rendering of a natural number, as Python's str/f-string. */
  function NatToString(n: nat): string
  {
    if n < 10 then [DigitChar(n)] else NatToString(n / 10) + [DigitChar(n % 10)]
  }

  /** The label of bucket i: "lo-hi m²", and ">45 m²" for the last one. */
  function Label(i: nat): string
    requires i < NumBuckets
  {
    if i == NumBuckets - 1 then ">" + NatToString(Edge(i)) + " m²"
    else NatToString(Edge(i)) + "-" + NatToString(Edge(i + 1)) + " m²"
  }

  function Distribution(areas: seq<real>): seq<BucketCount>
  {
    seq(NumBuckets, i requires 0 <= i < NumBuckets => BucketCount(Label(i), CountIn(areas, i)))
  }

  // ---------------------------------------------------------------------------
  // get_statistics

  /** The statistics the source computes over a list of rooftop areas. */
  function StatisticsOf(areas: seq<real>): Statistics
  {
    if |areas| == 0 then Statistics(0.0, 0.0, 0.0, 0.0, [])
    else
      Statistics(
        MinOf(areas),
        MaxOf(areas),
        Sum(areas) / |areas| as real,
        Sum(areas) * 0.15,
        Distribution(areas))
  }

  /** With at least one rooftop the distribution has ten entries, in ascending
      bucket order, with the labels "0-5 m²" ... "40-45 m²", ">45 m²", and
      entry k holds the number of areas in bucket k. */
  lemma DistributionShape(areas: seq<real>)
    requires |areas| > 0
    ensures var d := StatisticsOf(areas).areaDistribution;
      && |d| == NumBuckets
      && (forall k :: 0 <= k < NumBuckets ==> d[k].count == CountIn(areas, k))
      && d[0].range == "0-5 m²"
      && d[1].range == "5-10 m²"
      && d[2].range == "10-15 m²"
      && d[3].range == "15-20 m²"
      && d[4].range == "20-25 m²"
      && d[5].range == "25-30 m²"
      && d[6].range == "30-35 m²"
      && d[7].range == "35-40 m²"
      && d[8].range == "40-45 m²"
      && d[9].range == ">45 m²"
  {
    LabelsAsListed();
  }

  /** The labels the f-strings produce (proved two at a time: string
      equalities are costly for the solver). */
  lemma LabelsAsListed()
    ensures Label(0) == "0-5 m²"
    ensures Label(1) == "5-10 m²"
    ensures Label(2) == "10-15 m²"
    ensures Label(3) == "15-20 m²"
    ensures Label(4) == "20-25 m²"
    ensures Label(5) == "25-30 m²"
    ensures Label(6) == "30-35 m²"
    ensures Label(7) == "35-40 m²"
    ensures Label(8) == "40-45 m²"
    ensures Label(9) == ">45 m²"
  {
    LabelsOf0And1();
    LabelsOf2And3();
    LabelsOf4And5();
    LabelsOf6And7();
    LabelsOf8And9();
  }

  lemma LabelsOf0And1()
    ensures Label(0) == "0-5 m²"
    ensures Label(1) == "5-10 m²"
  {
  }

  lemma LabelsOf2And3()
    ensures Label(2) == "10-15 m²"
    ensures Label(3) == "15-20 m²"
  {
  }

  lemma LabelsOf4And5()
    ensures Label(4) == "20-25 m²"
    ensures Label(5) == "25-30 m²"
  {
  }

  lemma LabelsOf6And7()
    ensures Label(6) == "30-35 m²"
    ensures Label(7) == "35-40 m²"
  {
  }

  lemma LabelsOf8And9()
    ensures Label(8) == "40-45 m²"
    ensures Label(9) == ">45 m²"
  {
  }

  /** The bucket counting of get_statistics: for each area, the first bucket
      [Edge(i), Edge(i + 1)) holding it is incremented in place, and an area
      of 50 m² or more increments the last bucket. */
  method CountBuckets(areas: seq<real>) returns (distribution: array<nat>)
    ensures fresh(distribution)
    ensures distribution[..] == Histogram(areas)
  {
    distribution := new nat[NumBuckets](_ => 0);
    for idx := 0 to |areas|
      invariant distribution[..] == Histogram(areas[..idx])
    {
      var area := areas[idx];
      BucketOfMatchesEdges(area);
      HistogramSnoc(areas[..idx], area);
      assert areas[..idx + 1] == areas[..idx] + [area];
      var i := 0;
      while i < NumBuckets
        invariant 0 <= i <= NumBuckets
        invariant forall k :: 0 <= k < i ==> !(Edge(k) as real <= area < Edge(k + 1) as real)
        invariant distribution[..] == Histogram(areas[..idx])
      {
        if Edge(i) as real <= area < Edge(i + 1) as real {
          distribution[i] := distribution[i] + 1;
          assert BucketOf(area) == Some(i);
          break;
        }
        i := i + 1;
      }
      if area >= Edge(NumBuckets) as real {
        distribution[NumBuckets - 1] := distribution[NumBuckets - 1] + 1;
      }
    }
    assert areas[..|areas|] == areas;
  }

  /** The formatting step of get_statistics: one labelled entry per bucket,
      in bucket order. */
  method FormatDistribution(counts: seq<nat>) returns (areaDistribution: seq<BucketCount>)
    requires |counts| == NumBuckets
    ensures |areaDistribution| == NumBuckets
    ensures forall k :: 0 <= k < NumBuckets ==>
      areaDistribution[k] == BucketCount(Label(k), counts[k])
  {
    areaDistribution := [];
    for i := 0 to NumBuckets
      invariant |areaDistribution| == i
      invariant forall k :: 0 <= k < i ==> areaDistribution[k] == BucketCount(Label(k), counts[k])
    {
      areaDistribution := areaDistribution + [BucketCount(Label(i), counts[i])];
    }
  }

  /** AnalysisResult.get_statistics, as the source computes it. */
  method GetStatistics(rooftops: seq<Rooftop>) returns (st: Statistics)
    ensures st == StatisticsOf(Areas(rooftops))
    ensures |rooftops| == 0 ==> st == Statistics(0.0, 0.0, 0.0, 0.0, [])
    ensures |rooftops| > 0 ==> |st.areaDistribution| == NumBuckets
  {
    if |rooftops| == 0 {
      return Statistics(0.0, 0.0, 0.0, 0.0, []);
    }
    var areas := Areas(rooftops);
    var potentialCapacity := Sum(areas) * 0.15;
    var distribution := CountBuckets(areas);
    var areaDistribution := FormatDistribution(distribution[..]);
    assert areaDistribution == Distribution(areas);
    st := Statistics(
      MinOf(areas),
      MaxOf(areas),
      Sum(areas) / |areas| as real,
      potentialCapacity,
      areaDistribution);
  }

  // ---------------------------------------------------------------------------
  // to_dict

  function PointsToJson(points: seq<(real, real)>): (items: seq<Json>)
    ensures |items| == |points|
  {
    seq(|points|, i requires 0 <= i < |points| => PairToJson(points[i]))
  }

  function PointsFromJson(items: seq<Json>): (r: Option<seq<(real, real)>>)
  {
    if |items| == 0 then Some([])
    else
      match (PairFromJson(items[0]), PointsFromJson(items[1..]))
      case (Some(p), Some(ps)) => Some([p] + ps)
      case _ => None
  }

  lemma {:induction false} PointsRoundTrip(points: seq<(real, real)>)
    ensures PointsFromJson(PointsToJson(points)) == Some(points)
  {
    if |points| > 0 {
      PointsRoundTrip(points[1..]);
      assert PointsToJson(points)[1..] == PointsToJson(points[1..]);
      assert points == [points[0]] + points[1..];
    }
  }

  /** Rooftop.to_dict: the five fields under "id", "coordinates", "area",
      "confidence" and "centroid". */
  function RooftopToDict(r: Rooftop): Json
  {
    JObj([
      ("id", JStr(r.id)),
      ("coordinates", JArr(PointsToJson(r.coordinates))),
      ("area", JNum(r.area)),
      ("confidence", JNum(r.confidence)),
      ("centroid", PairToJson(r.centroid))])
  }

  /** Reads a rooftop back from its dict. */
  function RooftopFromDict(j: Json): Option<Rooftop>
  {
    match (Get(j, "id"), Get(j, "coordinates"), Get(j, "area"), Get(j, "confidence"), Get(j, "centroid"))
    case (Some(JStr(id)), Some(JArr(cs)), Some(JNum(area)), Some(JNum(conf)), Some(c)) =>
      var points := PointsFromJson(cs);
      var centroid := PairFromJson(c);
      if points.Some? && centroid.Some?
      then Some(Rooftop(id, points.value, area, conf, centroid.value))
      else None
    case _ => None
  }

  /** Rooftop.to_dict reproduces all five fields unchanged. */
  lemma RooftopDictRoundTrip(r: Rooftop)
    ensures RooftopFromDict(RooftopToDict(r)) == Some(r)
  {
    PointsRoundTrip(r.coordinates);
    var f := RooftopToDict(r).fields;
    LookupAt(f, "id", 0);
    LookupAt(f, "coordinates", 1);
    LookupAt(f, "area", 2);
    LookupAt(f, "confidence", 3);
    LookupAt(f, "centroid", 4);
  }

  function RooftopsFromDicts(items: seq<Json>): Option<seq<Rooftop>>
  {
    if |items| == 0 then Some([])
    else
      match (RooftopFromDict(items[0]), RooftopsFromDicts(items[1..]))
      case (Some(r), Some(rs)) => Some([r] + rs)
      case _ => None
  }

  function RooftopsToDicts(rooftops: seq<Rooftop>): (items: seq<Json>)
    ensures |items| == |rooftops|
  {
    seq(|rooftops|, i requires 0 <= i < |rooftops| => RooftopToDict(rooftops[i]))
  }

  lemma {:induction false} RooftopsRoundTrip(rooftops: seq<Rooftop>)
    ensures RooftopsFromDicts(RooftopsToDicts(rooftops)) == Some(rooftops)
  {
    if |rooftops| > 0 {
      RooftopDictRoundTrip(rooftops[0]);
      RooftopsRoundTrip(rooftops[1..]);
      assert RooftopsToDicts(rooftops)[1..] == RooftopsToDicts(rooftops[1..]);
      assert rooftops == [rooftops[0]] + rooftops[1..];
    }
  }

  function BoundsToDict(b: Bounds): Json
  {
    JObj([("north", JNum(b.north)), ("south", JNum(b.south)), ("east", JNum(b.east)), ("west", JNum(b.west))])
  }

  function BucketCountToDict(c: BucketCount): Json
  {
    JObj([("range", JStr(c.range)), ("count", JNum(c.count as real))])
  }

  function StatisticsToDict(st: Statistics): Json
  {
    JObj([
      ("min_area", JNum(st.minArea)),
      ("max_area", JNum(st.maxArea)),
      ("avg_area", JNum(st.avgArea)),
      ("potential_capacity", JNum(st.potentialCapacity)),
      ("area_distribution", JArr(seq(|st.areaDistribution|,
          i requires 0 <= i < |st.areaDistribution| => BucketCountToDict(st.areaDistribution[i]))))])
  }

  /** AnalysisResult.to_dict. */
  function AnalysisResultToDict(r: AnalysisResult): Json
  {
    JObj([
      ("rooftops", JArr(RooftopsToDicts(r.rooftops))),
      ("total_area", JNum(r.totalArea)),
      ("count", JNum(r.count as real)),
      ("bounds", BoundsToDict(r.bounds)),
      ("max_area_constraint", JNum(r.maxAreaConstraint)),
      ("statistics", StatisticsToDict(StatisticsOf(Areas(r.rooftops))))])
  }

  /** The dict keeps the rooftops in the same order and number. */
  lemma AnalysisResultDictRoundTrip(r: AnalysisResult)
    ensures var d := AnalysisResultToDict(r);
      && Get(d, "rooftops").Some? && Get(d, "rooftops").value.JArr?
      && RooftopsFromDicts(Get(d, "rooftops").value.items) == Some(r.rooftops)
  {
    RooftopsRoundTrip(r.rooftops);
  }

  /** The dict's count is the result's count. */
  lemma AnalysisResultDictCount(r: AnalysisResult)
    ensures Get(AnalysisResultToDict(r), "count") == Some(JNum(r.count as real))
  {
    LookupAt(AnalysisResultToDict(r).fields, "count", 2);
  }

  /** The dict's statistics are those get_statistics computes over the
      rooftops' areas. */
  lemma AnalysisResultDictStatistics(r: AnalysisResult)
    ensures Get(AnalysisResultToDict(r), "statistics") == Some(StatisticsToDict(StatisticsOf(Areas(r.rooftops))))
  {
    LookupAt(AnalysisResultToDict(r).fields, "statistics", 5);
  }

  // ---------------------------------------------------------------------------
  // Database rows

  /** A stored rooftop. `id` is the primary key the database assigns (None
      until the row is inserted); `coordinatesJson` is the stored GeoJSON. */
  datatype DetectedRooftop = DetectedRooftop(
    id: Option<int>,
    rooftopUuid: string,
    sessionId: int,
    coordinatesJson: Json,
    area: real,
    confidence: real,
    centroidLat: real,
    centroidLng: real)

  /** DetectedRooftop.from_rooftop. */
  function DetectedRooftopFromRooftop(r: Rooftop, sessionId: int): DetectedRooftop
  {
    DetectedRooftop(None, r.id, sessionId, JArr(PointsToJson(r.coordinates)),
      r.area, r.confidence, r.centroid.0, r.centroid.1)
  }

  /** DetectedRooftop.to_dict. */
  function DetectedRooftopToDict(d: DetectedRooftop): Json
  {
    JObj([
      ("id", match d.id case Some(k) => JNum(k as real) case None => JNull),
      ("rooftop_uuid", JStr(d.rooftopUuid)),
      ("coordinates", d.coordinatesJson),
      ("area", JNum(d.area)),
      ("confidence", JNum(d.confidence)),
      ("centroid", JArr([JNum(d.centroidLat), JNum(d.centroidLng)]))])
  }

  /** Storing a rooftop and reading its row back gives the same uuid, area,
      confidence and ring, and a centroid [lat, lng] equal to the rooftop's. */
  lemma DetectedRooftopRoundTrip(r: Rooftop, sessionId: int)
    ensures var d := DetectedRooftopToDict(DetectedRooftopFromRooftop(r, sessionId));
      && Get(d, "rooftop_uuid") == Some(JStr(r.id))
      && Get(d, "area") == Some(JNum(r.area))
      && Get(d, "confidence") == Some(JNum(r.confidence))
      && Get(d, "centroid").Some? && PairFromJson(Get(d, "centroid").value) == Some(r.centroid)
      && Get(d, "coordinates").Some? && Get(d, "coordinates").value.JArr?
      && PointsFromJson(Get(d, "coordinates").value.items) == Some(r.coordinates)
  {
    RooftopDictRoundTrip(r);
    var f := DetectedRooftopToDict(DetectedRooftopFromRooftop(r, sessionId)).fields;
    LookupAt(f, "rooftop_uuid", 1);
    LookupAt(f, "coordinates", 2);
    LookupAt(f, "area", 3);
    LookupAt(f, "confidence", 4);
    LookupAt(f, "centroid", 5);
  }

  /** A stored analysis session; `id` and the timestamp are assigned by the database. */
  datatype AnalysisSession = AnalysisSession(
    id: Option<int>,
    boundsNorth: real,
    boundsSouth: real,
    boundsEast: real,
    boundsWest: real,
    areaSizeKm2: real,
    maxAreaConstraint: real,
    rooftopCount: int,
    totalRooftopArea: real,
    potentialCapacityKw: real)

  /** AnalysisSession.from_analysis_result; `areaOf` stands for the module's
      calculate_area_size, which this model does not interpret. */
  function SessionFromAnalysisResult(r: AnalysisResult, areaOf: Bounds -> real): AnalysisSession
  {
    var stats := StatisticsOf(Areas(r.rooftops));
    AnalysisSession(None, r.bounds.north, r.bounds.south, r.bounds.east, r.bounds.west,
      areaOf(r.bounds), r.maxAreaConstraint, r.count, r.totalArea, stats.potentialCapacity)
  }

  /** A session records the result's bounds, area size, limit, count and total
      area, and a capacity of 0.15 kW per square metre of rooftop. When the
      result's total area is the sum of its rooftop areas, that capacity is
      0.15 times the stored total. */
  lemma SessionCapacity(r: AnalysisResult, areaOf: Bounds -> real)
    ensures var s := SessionFromAnalysisResult(r, areaOf);
      && s.boundsNorth == r.bounds.north && s.boundsSouth == r.bounds.south
      && s.boundsEast == r.bounds.east && s.boundsWest == r.bounds.west
      && s.areaSizeKm2 == areaOf(r.bounds)
      && s.rooftopCount == r.count && s.maxAreaConstraint == r.maxAreaConstraint
      && s.totalRooftopArea == r.totalArea
      && s.potentialCapacityKw == 0.15 * Sum(Areas(r.rooftops))
      && (r.totalArea == Sum(Areas(r.rooftops)) ==> s.potentialCapacityKw == 0.15 * s.totalRooftopArea)
  {
  }
}
