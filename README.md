# ProjectRoofTops backend core in Dafny

ProjectRoofTops finds empty rooftops in a user-selected area of Portugal that
could carry solar panels. This project models the Python backend's core and
proves properties of it:

- `models.py` (`models.dfy`, module `Models`): the `Rooftop`, `AnalysisResult`,
  `DetectedRooftop` and `AnalysisSession` records and their dictionary
  conversions. `AnalysisResult.get_statistics` is modelled as an imperative
  method over an array of ten bucket counters. It is proved equal to a
  specification function, and that function is proved to have the
  histogram's properties:
  - exactly one bucket per non-negative area;
  - count conservation;
  - the last bucket absorbs everything at or above 45 m²;
  - the counts do not depend on order;
  - the labels are as listed;
  - min ≤ mean ≤ max;
  - capacity is 0.15 kW per m².
- `yolo_model.py` (`yolo_model.dfy`, module `YoloModel`): the simulated detector.
  - Its deterministic steps are each a function with its own properties:
    pixel clamping, pixel-to-degree mapping, ring closure, the vertex-mean
    centroid, the shoelace area, and the `5 + (x % 40)` scaling.
  - The loops of `_simulate_detections` and `_calculate_approx_area` are
    methods proved against those functions.
  - The `YoloModel` class is the `Detector` class, with its `detect_rooftops`
    dispatch.
- `gis_utils.py` (`gis_utils.dfy`, module `GisUtils`):
  - the bounds of Portugal;
  - `split_area_into_chunks`: its grid is a least-ceiling-square-root division
    count, proved to tile the box;
  - `calculate_geo_transform`, proved to agree with the detector's pixel
    mapping;
  - `process_area`: the strict admission gate, the chunk loop and the
    aggregation. The loop method is proved with the simulated detector.
    The properties of its result are proved for any detector:
    - for every detector, the rooftops are the per-chunk detections in chunk
      order, the count is their number and the total area is their sum;
    - a detector that finds 3 to 8 rooftops per call gives 3 to 8 rooftops per
      chunk;
    - a detector that keeps its detections inside the chunk it ran on, over a
      box with positive extent in both directions, gives rooftops that all
      lie inside the requested box;
    - the simulated detector is proved to do both.
- `json_values.dfy` (module `JsonValues`): the JSON values the `to_dict`
  methods build, with lookups by key, and an `Option` type.

Numbers are Dafny `real`s, so every `+ - * /` is exact. Python's `%` with the
positive divisor 40 is floor modulo (`FloorMod`).

Three pieces of the source are inputs to the model rather than parts of it:
- **Area of a box.** `calculate_area_size` is the parameter `areaOf`.
- **Cosine.** `np.cos(np.radians(·))` is the parameter `cosDeg`.
- **Random draws.** The random numbers and uuids of one simulated detection
  are a `PolygonDraw`: the uuid, the unclamped pixel vertices, and the
  confidence. `ValidDraw` states the ranges one detection's draws come from:
  - 4 to 6 vertices;
  - a confidence in [0.7, 0.98).

  `ValidDraws` adds that one call draws 3 to 8 detections.

  `process_area` gets the draws of its k-th detector call as `draws(k)`.

The front end's placeholder chart (static/js/dashboard.js:31) has five buckets,
`0-5 m²` up to `>20 m²`, always shown. The server's `get_statistics`
(models.py:68-89) has ten 5 m² buckets and an empty distribution when there
are no rooftops. The model follows the server.

## Definitions

Each of these functions models one piece of the source and is the reference
definition the lemmas and methods in `## Model` are stated against. Their
properties are proved about them rather than stated in their own contracts,
so their rows below name those lemmas and methods.

| function | source | computes |
|---|---|---|
| `Models.RooftopToDict` | models.py:21-29 | `Rooftop.to_dict`: the five fields under "id", "coordinates", "area", "confidence" and "centroid". |
| `Models.AnalysisResultToDict` | models.py:40-49 | `AnalysisResult.to_dict`: the rooftop dicts, total area, count, bounds, limit and the statistics dict. |
| `Models.StatisticsOf` | models.py:51-97 | `get_statistics` on the list of areas; `GetStatistics` is proved equal to it. |
| `Models.DetectedRooftopFromRooftop` | models.py:179-190 | `DetectedRooftop.from_rooftop`: uuid, session id, coordinates, area, confidence and the centroid split into latitude and longitude. |
| `Models.DetectedRooftopToDict` | models.py:169-177 | `DetectedRooftop.to_dict`, with the centroid as `[lat, lng]`. |
| `Models.SessionFromAnalysisResult` | models.py:136-151 | `AnalysisSession.from_analysis_result`, with `areaOf` for `calculate_area_size`. |
| `YoloModel.PixelToGeo` | yolo_model.py:128-131 | Pixel (x, y) to (lat, lng): lng = W + (x/width)(E-W), lat = N - (y/height)(N-S). |
| `YoloModel.Centroid` | yolo_model.py:141-142 | The mean of the ring without its closing point. |
| `YoloModel.ApproxAreaOf` | yolo_model.py:157-183 | `_calculate_approx_area`; `CalculateApproxArea` is proved equal to it. |
| `YoloModel.SimulatedRooftop` | yolo_model.py:101-153 | One iteration of `_simulate_detections` from its draws; `SimulateRooftop` is proved equal to it. |
| `GisUtils.Chunks` | gis_utils.py:120-162 | `split_area_into_chunks`; `SplitAreaIntoChunks` is proved equal to it. |
| `GisUtils.GeoTransform` | gis_utils.py:201-218 | `calculate_geo_transform`: `[west, x_res, 0, north, 0, -y_res]`. |
| `GisUtils.ProcessAreaResult` | gis_utils.py:29-88 | `process_area` with a given detector; `ProcessArea` is proved equal to it for the simulated detector. |
| `GisUtils.OutcomeToDict` | gis_utils.py:47-88 | The dictionary `process_area` returns: the error dict for a rejected area, otherwise the result's `to_dict`. |

## Model

| member | source | states |
|---|---|---|
| `Models.GetStatistics` | models.py:51-97 | The statistics of a list of rooftops are those of their areas (`StatisticsOf`). With no rooftops they are all zero with an empty distribution. Otherwise the distribution has ten entries. |
| `Models.CountBuckets` | models.py:68-77 | The nested loop with `break` leaves in each of the ten counters exactly the histogram of the areas. |
| `Models.FormatDistribution` | models.py:79-89 | The formatting loop gives ten entries, entry k pairing bucket k's label with its count. |
| `Models.MinAvgMax` | models.py:62-95 | For a non-empty list: the min and max are areas of the list and bound every area, min ≤ avg ≤ max, and the capacity is 0.15 × the sum of areas. |
| `Models.MeanBetween` | models.py:94 | Areas all in [lo, hi] have their average (sum / count) in [lo, hi]. |
| `Models.BucketOfMatchesEdges` | models.py:71-77 | An area is counted in bucket k exactly when 5k ≤ a < 5(k+1), or when k is the last bucket and a ≥ 50. |
| `Models.HistogramSnoc` | models.py:71-77 | Adding one area increments exactly its bucket and no other. A negative area changes no count. |
| `Models.HistogramConservation` | models.py:71-77 | The bucket counts add up to the number of non-negative areas. |
| `Models.CountInPermutationInvariant` | models.py:71-77 | Each bucket's count depends only on the multiset of areas. |
| `Models.HistogramPermutationInvariant` | models.py:71-77 | Reordering the rooftops leaves the whole distribution unchanged. |
| `Models.LastBucketCountsFrom45` | models.py:73-77 | The last bucket counts exactly the areas ≥ 45: those in [45, 50) and those ≥ 50. |
| `Models.OuterBucketsEmpty` | models.py:68-77 | When every area lies in [5, 45), the "0-5" and ">45" buckets are both zero. |
| `Models.LabelsAsListed` | models.py:80-89 | The labels are "0-5 m²", "5-10 m²", …, "40-45 m²", then ">45 m²". |
| `Models.DistributionShape` | models.py:80-89 | A non-empty list's distribution has ten entries in ascending bucket order, each with its label and the count of its bucket. |
| `Models.PointsRoundTrip` | models.py:21-29 | The coordinate list in a rooftop's dictionary reads back as the same points in the same order. |
| `Models.RooftopDictRoundTrip` | models.py:21-29 | `Rooftop.to_dict` keeps all five fields: reading the dictionary back gives the same rooftop. |
| `Models.RooftopsRoundTrip` | models.py:43 | The "rooftops" list of dictionaries reads back as the same rooftops, in the same order and number. |
| `Models.AnalysisResultDictRoundTrip` | models.py:40-49 | The result dictionary's "rooftops" entry holds the result's rooftops, in order. |
| `Models.AnalysisResultDictCount` | models.py:45 | The result dictionary's "count" entry is the result's count. |
| `Models.AnalysisResultDictStatistics` | models.py:48 | The result dictionary's "statistics" entry is the statistics of the result's rooftop areas. |
| `Models.DetectedRooftopRoundTrip` | models.py:169-190 | `from_rooftop` followed by `to_dict` gives back the rooftop's uuid, coordinates, area and confidence, and its centroid as `[lat, lng]`. |
| `Models.SessionCapacity` | models.py:136-151 | A session copies the result's bounds, limit, count and total area, and stores `calculate_area_size` of the bounds as its area size. Its capacity is 0.15 × the sum of rooftop areas, which is 0.15 × the stored total when that total is the sum. |
| `YoloModel.Clamp` | yolo_model.py:121-122 | A clamped pixel index lies in [0, size-1]. It equals the index when that is in range, and is 0 or size-1 when below or above. |
| `YoloModel.PixelToGeoInBounds` | yolo_model.py:128-131 | Over a proper box (west < east, south < north), a pixel inside the image maps to west ≤ lng < east and south < lat ≤ north. |
| `YoloModel.CloseRing` | yolo_model.py:134 | The closed ring has one point more than the polygon: the polygon's vertices followed by the first vertex again. |
| `YoloModel.CentroidOfClosedRing` | yolo_model.py:141-142 | The centroid over `geo_coords[:-1]` is the mean of the polygon's vertices; the closing duplicate is left out. |
| `YoloModel.CentroidInBox` | yolo_model.py:141-142 | A polygon with all vertices in a box has its centroid in that box. |
| `YoloModel.AvgLatCountsFirstVertexTwice` | yolo_model.py:175 | The average latitude runs over the closed ring, so the first vertex counts twice among the polygon's n+1 points. |
| `YoloModel.ShoelaceArea` | yolo_model.py:166-170 | The shoelace area (absolute sum over consecutive pairs, halved) is never negative. |
| `YoloModel.ShoelaceReverse` | yolo_model.py:166-170 | Reversing the ring negates the shoelace sum and leaves the area unchanged. |
| `YoloModel.FloorMod` | yolo_model.py:181 | Python's `x % m` with m > 0 lies in [0, m). |
| `YoloModel.FloorModUnique` | yolo_model.py:181 | `x % m` is the unique r in [0, m) with x = q·m + r for an integer q. |
| `YoloModel.CalculateApproxArea` | yolo_model.py:157-183 | The loop computes the shoelace sum, so the method returns `ApproxAreaOf`. The result lies in [5, 45) whatever the cosine factor. |
| `YoloModel.PolygonVertices` | yolo_model.py:114-131 | The loops clamp each drawn pixel into the image and map it to (lat, lng), vertex by vertex. |
| `YoloModel.SimulateRooftop` | yolo_model.py:101-153 | One loop iteration builds the rooftop `SimulatedRooftop` describes. |
| `YoloModel.SimulateDetections` | yolo_model.py:79-155 | The loop returns one simulated rooftop per draw, in draw order. |
| `YoloModel.SimulatedRingInBox` | yolo_model.py:101-142 | A simulated rooftop's ring is closed and has one point more than the drawn vertices. Over a proper box the ring lies in the box, and its centroid is the vertex mean and also lies in the box. |
| `YoloModel.SimulatedRooftopFields` | yolo_model.py:138-151 | A simulated rooftop carries the drawn uuid, a confidence in [0.7, 0.98) and an area in [5, 45). |
| `YoloModel.SimulatedRooftopWithin` | yolo_model.py:101-151 | One simulated rooftop over a proper box has its whole ring in the box, an area in [5, 45) and a confidence in [0.7, 0.98). |
| `YoloModel.SimulatedDetectionAt` | yolo_model.py:101-153 | The k-th simulated detection is the rooftop built from the k-th draw. |
| `YoloModel.SimulatedDetectionsInBox` | yolo_model.py:94-153 | Over a proper box, every simulated rooftop lies in the box, with an area in [5, 45) and a confidence in [0.7, 0.98). |
| `YoloModel.Detector.constructor` | yolo_model.py:32-49 | A new detector has the model loaded, with name "YOLOv10 Rooftop Detector" and version "1.0". |
| `YoloModel.Detector.DetectRooftops` | yolo_model.py:51-77 | Both branches return the simulated detections, so the result does not depend on `model_loaded`. |
| `GisUtils.PortugalBounds` | gis_utils.py:18-27 | The Portugal box is proper (south < north and west < east) and spans under 6 degrees of latitude and 4 of longitude. |
| `GisUtils.Divisions` | gis_utils.py:137 | `int(ceil(sqrt(ratio)))` is the least n with n² ≥ ratio: (n-1)² < ratio ≤ n². |
| `GisUtils.CeilSqrtIsLeast` | gis_utils.py:137 | No m with m² ≥ ratio is smaller than the division count. |
| `GisUtils.DivisionsAboveOne` | gis_utils.py:133-137 | An area over the chunk limit gets at least 2 divisions. |
| `GisUtils.ChunkCount` | gis_utils.py:131-162 | An area within the chunk limit is returned as the single unchanged box. Otherwise n = ⌈√(area/max)⌉ ≥ 2 and n² chunks are produced. |
| `GisUtils.RowsAt` | gis_utils.py:140-158 | Chunk i·n+j is the cell in row i and column j. South and north are S + i·(N-S)/n plus one step, and west and east are W + j·(E-W)/n plus one step. |
| `GisUtils.ChunkCorners` | gis_utils.py:131-162 | The first chunk's south-west corner and the last chunk's north-east corner are the box's, both for the single unchanged box and for the grid. |
| `GisUtils.GridCorners` | gis_utils.py:140-158 | The first chunk's south-west corner is the box's, and the last chunk's north-east corner is the box's. |
| `GisUtils.GridAdjacent` | gis_utils.py:146-151 | Neighbouring chunks share edges: a chunk's north is the next row's south, and its east is the next column's west. |
| `GisUtils.GridUniform` | gis_utils.py:140-151 | Every chunk spans (N-S)/n in latitude and (E-W)/n in longitude. |
| `GisUtils.ChunksWithin` | gis_utils.py:120-162 | Every chunk of a proper box lies inside the box. |
| `GisUtils.SplitAreaIntoChunks` | gis_utils.py:120-162 | The nested loops produce exactly `Chunks`: the box itself when small enough, and otherwise the n×n grid in row-major order with latitude rows outer. |
| `GisUtils.GeoTransformCorners` | gis_utils.py:213-218 | west + width·x_res = east and north + height·(-y_res) = south. |
| `GisUtils.GeoTransformMatchesPixelToGeo` | gis_utils.py:201-218 | Applying the 6-entry transform to pixel (x, y) gives the point the detector's pixel mapping computes. |
| `GisUtils.ErrorKeyIffTooLarge` | gis_utils.py:47-53 | The returned dictionary has an "error" key exactly when the area was rejected. |
| `GisUtils.SimulatedDetector` | yolo_model.py:51-155 | The simulated detector, on a 512×512 image of a chunk, can be called for every chunk and every call. |
| `GisUtils.ProcessArea` | gis_utils.py:29-88 | The method computes `ProcessAreaResult`. It rejects the area, reporting area_size and max_area, exactly when area_size > max_area, so equality passes. |
| `GisUtils.CollectPrefix` | gis_utils.py:59-74 | The rooftops of earlier chunks stay at the front, in chunk order, as later chunks are processed. |
| `GisUtils.CollectArea` | gis_utils.py:74-77 | Each chunk adds the sum of its own detections' areas to the total, so the total area is the sum of the per-chunk totals. |
| `GisUtils.CollectCount` | gis_utils.py:59-74 | With 3 to 8 detections per chunk, n chunks yield between 3n and 8n rooftops. |
| `GisUtils.CollectWithin` | gis_utils.py:59-74 | When every chunk lies in the box and the detector keeps its detections inside the chunk, every collected rooftop lies in the box. |
| `GisUtils.AnalysedTotals` | gis_utils.py:59-86 | For any detector, on success: the rooftops are all chunks' detections in chunk order, count is their number, total_area is the sum of their areas and the capacity 0.15 of it, and the bounds and limit are the requested ones. |
| `GisUtils.AnalysedCounts` | gis_utils.py:77-86 | With 3 to 8 detections per call, on success count equals the number of rooftops and lies between 3 and 8 per chunk. |
| `GisUtils.AnalysedRooftopsWithin` | gis_utils.py:59-86 | When the detector keeps its detections inside the chunk it ran on and the box has positive extent, on success every rooftop lies inside the requested box. |
| `GisUtils.AnalysedStatistics` | gis_utils.py:59-88 | When the detector keeps its detections, with areas in [5, 45), inside the chunk it ran on, and the box has positive extent, on success the "0-5" and ">45" buckets are empty and the min and max areas lie in [5, 45). |
| `GisUtils.SimulatedDetectorSound` | yolo_model.py:94-153 | Each call of the simulated detector finds 3 to 8 rooftops. On a proper chunk each lies in that chunk, with area in [5, 45) and confidence in [0.7, 0.98). |
| `GisUtils.SimulatedAnalysis` | gis_utils.py:29-88 | With the simulated detector, a successful analysis of a proper box has 3 to 8 rooftops per chunk, all inside the box. |

## Left out

- **Other parts of the repository.** Not modelled:
  - the JavaScript front end (map and dashboard wiring, its own haversine and
    area numerics);
  - the Flask routes and the pvlib solar simulation in `app.py`;
  - `extensions.py` (logging and database setup).
- **`calculate_area_size`** (gis_utils.py:90-118, a GeoPandas Web Mercator
  projection; and models.py:192-220, cosine based): the parameter `areaOf`,
  left uninterpreted.
- **`generate_mock_image`:** random image synthesis. Only the 512×512 image
  size it fixes is used, as `ImageSize`.
- **Randomness and uuids:** `np.random` and `uuid.uuid4` values are inputs
  (`PolygonDraw`, `draws`). The polar construction of the unclamped vertices
  (centre, radius, `cos`/`sin` of the angle, `int` truncation) is not modelled.
  The model starts from the drawn integer pixels and assumes only their count.
- **`np.cos(np.radians(avg_lat))`:** the parameter `cosDeg`. The [5, 45) bound
  holds for any value it returns.
- **Floating point:** every float is an exact real, so rounding in the tiling
  and mapping arithmetic is not modelled. `ceil(sqrt(·))` is the exact least
  n with n² ≥ ratio.
- **Logging and model loading:** logging calls are dropped. The model-loading
  `try` block is a placeholder that always succeeds, so the constructor sets
  `modelLoaded` to true.
- **`detect_rooftops` arguments:** the image is passed only as its width and
  height, and the geo transform argument is accepted but unused, as in the
  source.
- **The `process_area` detector:** it is a function of the call index and the
  chunk (`ChunkDetector`). The guarantees are proved for any such detector
  and for the simulated one.
- **Error text:** the error string formats `area_size` and `max_area` into
  text. The model keeps a fixed message (`TooLargeMessage`) and carries both
  numbers in the "area_size" and "max_area" entries.
- **Units:** `max_area` is documented in m² but compared against the area in
  km². The comparison is modelled as written.
- **Database records:**
  - SQLAlchemy columns, relationships, ids and timestamps are not modelled;
    `AnalysisSession` and `DetectedRooftop` are plain records.
  - `json.dumps`/`json.loads` of the coordinates is the identity on the point
    list.
  - `AnalysisSession.to_dict` is not modelled.
- **The duplicated `Rooftop`:** the class in yolo_model.py:10-27 is identical
  to the one in models.py:12-29. It is modelled once, in `Models`, and its
  `to_dict` is `Models.RooftopToDict`.
- **Loop bodies as methods:** some loop bodies are helper methods
  (`CountBuckets`, `FormatDistribution`, `PolygonVertices`, `SimulateRooftop`)
  called from the method that models the enclosing function.
- **Chunk order:** `GisUtils.CollectPrefix` states it as a prefix property.
  The model has no separate lemma equating the concatenation with a flat map.
