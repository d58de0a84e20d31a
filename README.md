# Thermal-comfort aggregation, modelled in Dafny

Occupants of a library drop markers on a floor plan to say how a room feels.
Each marker has a room id, a type and a timestamp. The types are "hot",
"warm", "ideal", "cool" and "cold", or any other string the client sent.
The Flask application (`app.py`) turns the markers of one location into
four things:

- a counter per room and an overall counter, each with a synthetic "total" key;
- a weighted comfort index per room, with a five-band label;
- the overall too-hot and too-cold percentages;
- an hourly trend and a colour swatch per room for the map view.

It also has a small helper, `rect_to_poly`, that turns two corners into a
rectangle outline for the floor-plan polygons.

This project models that aggregation and proves its properties. The modules are:

- `Occurrences`: counting the occurrences of values in a sequence. Its
  partition lemma says that the counts over distinct keys, plus the values
  outside those keys, add up to the length.
- `Counting`: the Python `Counter` as a `map<string, nat>` read through
  `Get`. The counting loop is a method, `CountMarkers`. It is proved against
  the specification functions `Tally` (one counter) and `RoomStats` (one
  counter per room).
- `ComfortIndex`: the weights, the index, the label chain, the per-room
  results, the percentages and the colour lookup.
- `Sorting`: `sorted` on the hour keys, as an insertion sort that yields a
  strictly ascending list.
- `Trend`: hour truncation, the bucketing loop (a method, `BuildBuckets`,
  proved against `HourBuckets`), the sorted items and the per-hour averages.
- `Floorplan`: `rect_to_poly`.
- `Examples`: concrete marker lists and what the aggregation makes of them.

`compute_comfort_index` is written three times in `app.py`. The copies in
`dashboard` (175-197) and `new_dashboard` (367-389) are identical. Both are
modelled by `ComfortIndex.ComfortOf`. The copy in `api_comfort_data`
(250-262) returns only the raw index and is `ComfortIndex.RawIndex`. The
two agree on the unrounded index. The dashboards then report
`round(index, 2)` next to a label taken from the unrounded index, so the
number shown can lie in the neighbouring band. For example, 25 "cold" and
74 "ideal" markers give 25/99 = 0.2525..., labelled "Cool", and the reported
0.25 lies in the "Ideal" band (`Examples.RoundingCrossesThreshold`).

The code is followed where it departs from a plain reading of its intent. A
marker whose type is literally "total" raises a counter's "total" key twice,
because the loop increments the marker's own type and then "total". So
"total" equals the number of markers only when no marker has type "total".
The counting lemmas state this case outright.

Timestamps are whole seconds. Hour truncation
(`ts.replace(minute=0, second=0, microsecond=0)`) is `t - t % 3600`. The
weights are exact halves, so the index is a `real`.

## Model

| member | source | states |
|---|---|---|
| Counting.Bump | app.py:171 | `c[k] += 1` on a Counter: key `k` reads one more than before, every other key reads as before, and `k` joins the keys |
| Counting.Record | app.py:171-172 | one marker raises its own type and "total" by one each, so "total" rises by two for a marker of type "total"; all other keys are unchanged |
| Counting.Tally | app.py:243-247 | the reference definition of `total_counts`: the markers recorded one after another into an empty counter. Its properties are stated by TallyCount, TallyKeys and CountsAddUp |
| Counting.RoomStats | app.py:240-247 | the reference definition of `room_stats`: one counter per room id that occurs, the Tally of that room's markers in order. Its properties are stated by RoomTotalCountsEntries, RoomCountsAddUp and RoomsAddUpToOverall |
| Counting.CountMarkers | app.py:240-247 | after the counting loop, `room_stats` holds, for each room with markers, the counter of that room's markers, and `total_counts` is the counter of all markers |
| Counting.TallyCount | app.py:246-247 | in a counter, each type's count is the number of markers of that type, and "total" is the number of markers plus the number of markers of type "total" |
| Counting.TallyKeys | app.py:243-247 | a counter's keys are the marker types seen, plus "total" as soon as there is a marker |
| Counting.CountsAddUp | app.py:243-247 | over distinct types other than "total", the per-type counts plus the markers of other types make up all markers; when every marker has a listed type, the counts sum to "total", which equals the number of markers |
| Counting.RoomTotalCountsEntries | app.py:168-172 | a room's "total" is the number of markers with that room id (plus those of type "total"), so it is at least 1 for every room in the dictionary |
| Counting.RoomCountsAddUp | app.py:168-172 | per room, the per-type counts plus the room's markers of other types make up the room's markers; when all of them are listed, "total" equals the sum of the counts and the number of the room's markers |
| Counting.RoomsAddUpToOverall | app.py:240-247 | for every key, the overall counter is the sum of the room counters over all rooms; in particular, `total_counts["total"]` is the sum of the rooms' totals |
| ComfortIndex.Weight | app.py:251-257 | the weight table: -1, -0.5, 0, 0.5 or 1, and 0 for a type that is not in the table |
| ComfortIndex.WeightedSumOver | app.py:261 | the weighted sum over a list of keys is never larger in size than the plain count of those keys |
| ComfortIndex.WeightedSum | app.py:261 | the weighted sum over the weight table is never larger in size than the number of markers of the weighted types |
| ComfortIndex.RawIndex | app.py:250-262 | `api_comfort_data`'s copy of `compute_comfort_index`: 0 for total 0; otherwise the index times "total" is the weighted sum |
| ComfortIndex.WeightedSumExpanded | app.py:261 | the weighted sum equals -hot - 0.5·warm + 0.5·cool + cold; "ideal", "total" and unknown types add nothing |
| ComfortIndex.TallyIsConsistent | app.py:240-247 | in every counter built from markers, the weighted types never outnumber "total" |
| ComfortIndex.IndexBounded | app.py:258-262 | the index of a consistent counter lies in [-1, 1]; with total 0 it is 0, and no division takes place |
| ComfortIndex.Classify | app.py:187-196 | the five bands, with inclusive upper bounds -0.75, -0.25, 0.25 and 0.75; each band holds exactly the indices in its interval, so the bands partition the reals |
| ComfortIndex.ClassifyMonotone | app.py:187-196 | the label is monotone: a larger index never gets a hotter band |
| ComfortIndex.ComfortOf | app.py:175-197 | "No Data" with index 0 exactly when total is 0; otherwise the raw index, labelled by the band chain |
| ComfortIndex.RoomComfort | app.py:199-205 | one comfort result per room counter, with the same keys |
| ComfortIndex.EveryRoomHasData | app.py:168-197 | every room in the dashboards' dictionary has one of the five band labels, never "No Data", and an index in [-1, 1] |
| ComfortIndex.UnknownKindDilutes | app.py:261 | a marker of an unweighted type leaves the weighted sum unchanged and raises "total", so the index moves toward 0 without crossing it |
| ComfortIndex.DilutedIndex | app.py:258-262 | raising "total" while keeping the weighted sum moves the index of a consistent counter toward 0, never across it |
| ComfortIndex.Percent | app.py:268-269 | 0 when the overall total is 0; within [0, 100] for a count no larger than the total; 100 exactly when the count equals the total |
| ComfortIndex.OverallSummary | app.py:265-273 | `totalSubmissions` is the number of markers (markers of type "total" count twice); `avgComfort` lies in [-1, 1]; with no markers every figure is 0 |
| ComfortIndex.Summarize | app.py:265-273 | the overall figures of a counter: `avgComfort` is the index of the overall counter, `tooHot` the percentage of "hot" plus "warm", `tooCold` that of "cold" plus "cool", and `totalSubmissions` is "total"; all 0 for total 0; for a consistent counter `avgComfort` lies in [-1, 1]; too-hot plus too-cold is at most 100 when the four counted types do not outnumber "total" |
| ComfortIndex.PercentSum | app.py:268-272 | the two percentages add up to the combined share; at most 100 exactly when the combined count is at most the total, and equal to 100 exactly when it equals the total |
| ComfortIndex.PercentPair | app.py:268-272 | two shares of one total give percentages that add up to at most 100; they are both 0 for total 0, and add up to exactly 100 iff the shares make up the total |
| ComfortIndex.HotOrColdCount | app.py:271-273 | hot, warm, cold and cool counts plus the markers of other types make up all markers; "total" is the number of markers plus those of type "total" |
| ComfortIndex.HotOrColdShare | app.py:271-273 | the hot, warm, cold and cool counts together never exceed "total"; they equal it iff every marker is of those four types; "total" is 0 iff there are no markers |
| ComfortIndex.PercentagesAtMost100 | app.py:268-272 | too-hot plus too-cold is at most 100; both are 0 with no markers; with markers, the sum is exactly 100 iff every marker is hot, warm, cold or cool |
| ComfortIndex.ColorLabel | app.py:309-321 | an index of exactly 0 gives the "No Data" swatch; every other index gets the colour and note of its band |
| ComfortIndex.ColorLabelAgreesWithComfort | app.py:309-327 | the map swatch agrees with the dashboards' label, except for a room with markers and index exactly 0: the dashboards say "Ideal" and the map says "No Data" |
| ComfortIndex.SwatchOf | app.py:309-321 | the corrected swatch, keyed on the label: "No Data" exactly for a result labelled "No Data", with the source's "No Data" colour; an "Ideal" result gets the Ideal band's swatch whatever its index, 0 included; for a result labelled by its band with a non-zero index, the same swatch as `comfort_color_label` |
| ComfortIndex.SwatchOfComfort | app.py:323-327 | the corrected swatch says "No Data" iff the room has no markers, and is then the source's "No Data" swatch; a room with markers and index 0 gets the Ideal band's swatch; on every non-zero index it agrees with `comfort_color_label` |
| ComfortIndex.RoomSwatches | app.py:323-327 | the `rooms` dictionary loop, corrected: each room's swatch is SwatchOf of its comfort result, not `comfort_color_label` of its index; one swatch per room counter, "No Data" exactly for a counter whose total is 0 |
| Trend.HourOf | app.py:292 | the hour of a timestamp is a multiple of 3600 and the timestamp lies within that hour |
| Trend.HourBuckets | app.py:288-295 | the reference definition of `buckets`: one bucket per hour that occurs, holding the score sum and count of that hour's markers. Its properties are stated by HourBucketsSnoc, BucketsNonEmpty and BucketHours |
| Trend.AddTo | app.py:293-295 | adding a marker to a bucket raises its count by one and keeps its sum within plus or minus its count |
| Trend.ScoreSum | app.py:293-294 | a bucket's sum of scores is never larger in size than its number of markers |
| Trend.HourBucketsSnoc | app.py:293-295 | one more marker changes the buckets only at that marker's hour: the bucket there (empty if new) gains the marker's score and one count |
| Trend.BuildBuckets | app.py:288-295 | after the bucketing loop, there is one bucket per hour that has markers, holding those markers' score sum and count |
| Trend.BucketsNonEmpty | app.py:288-295 | every bucket has count at least 1, and its sum lies within plus or minus its count |
| Trend.BucketHours | app.py:288-295 | the hours of the buckets are exactly the hours of the markers |
| Sorting.Insert | app.py:298 | inserting into a strictly ascending list keeps it strictly ascending and adds exactly that key |
| Sorting.SortedKeys | app.py:298 | the sorted keys are strictly ascending and are exactly the keys given |
| Sorting.DistinctCardinality | app.py:298 | the helper that gives SortedItems exactly as many items as there are buckets: a list without repeats has as many elements as its set of elements |
| Trend.SortedItems | app.py:298 | `sorted(buckets.items())` has one item per bucket, each with its own bucket, in strictly ascending hour order |
| Trend.Average | app.py:300-302 | `sum / count`: for a non-empty bucket the average times the count is the sum; it lies in [-1, 1] when the sum is bounded by the count; an empty bucket averages 0 |
| Trend.TrendOf | app.py:298-303 | one trend point per bucket, in strictly ascending hour order, each the average of its own bucket |
| Trend.TrendAverages | app.py:288-303 | every trend value is the mean of the weights of its hour's markers: times their number, it gives their weight sum |
| Trend.TrendProperties | app.py:288-303 | the trend of the markers has one point per hour with markers, in strictly ascending order, each average in [-1, 1]; every sorted bucket has count at least 1 |
| Trend.CountsCoverData | app.py:288-298 | the counts of the sorted buckets add up to the number of markers |
| Trend.SortedBucketsOf | app.py:298 | `sorted(buckets.items())` of a marker list: every item holds its hour's own bucket, the items cover exactly the hours of the markers, and they are in strictly ascending hour order |
| Trend.TrendOfMarkers | app.py:298-303 | the trend of a marker list: every point is the average of its hour's bucket, the points cover exactly the hours of the markers, and they are in strictly ascending hour order |
| Floorplan.RectToPoly | app.py:42-50 | four vertices, starting at the first corner and reaching the second third; every edge, including the closing one, is horizontal or vertical; every vertex takes its coordinates from the two corners |
| Floorplan.RectCorners | app.py:42-50 | all four corner combinations of the two points are vertices |
| Floorplan.RectArea | app.py:42-50 | the shoelace sum of the outline is twice the rectangle's signed area, (x1 - x2)(y2 - y1) |
| Floorplan.RectSwap | app.py:42-50 | swapping the corners gives the same outline, rotated to start at the other corner |
| Floorplan.RectDistinct | app.py:42-50 | the four vertices are pairwise distinct iff the corners differ in both coordinates |
| Examples.HotAndColdRoom | app.py:168-197 | one "hot" and one "cold" marker in a room give index 0 and "Ideal"; the as-written swatch says "No Data" and the corrected one "Ideal" |
| Examples.HotAndColdCounter | app.py:175-197 | a counter of one "hot" and one "cold" marker has index 0 and label "Ideal" |
| Examples.FourIdeal | app.py:175-197 | four "ideal" markers give total 4, index 0 and "Ideal" |
| Examples.UniformTally | app.py:240-247 | for markers all of one type other than "total", that type and "total" both count every marker, and every other key reads 0 |
| Examples.PairTally | app.py:240-247 | the counter of two markers: each key counts the markers of that type, and "total" counts both |
| Examples.SingleRoom | app.py:168-172 | markers all of one room make a single room counter, the counter of all of them |
| Examples.ThresholdBoundary | app.py:187-194 | -0.75 is "Too Hot" and -0.749999 is "Warm"; 0 and 0.25 are "Ideal" and 0.75 is "Cool" |
| Examples.RoundingCrossesThreshold | app.py:175-197 | a counter holding 25 "cold", 74 "ideal" and total 99 is labelled "Cool" with index 25/99, while the rounded 0.25 lies in the "Ideal" band |
| Examples.SameHourBuckets | app.py:288-295 | markers that all fall in one hour make a single bucket at that hour, holding all of them |
| Examples.OneHourBuckets | app.py:288-295 | a "hot" marker at 09:00 and a "cold" one at 09:45 make one bucket at 09:00 with sum 0 and count 2 |
| Examples.OneBucketTrend | app.py:298-303 | a single bucket makes a trend of one point: the bucket's average, at its hour |
| Examples.OneHourTrend | app.py:288-303 | the 09:00 and 09:45 markers make a trend of a single point at 09:00 with average 0 |
| Examples.HotAndWarmBuckets | app.py:288-295 | a "hot" marker at 09:00 and a "warm" one at 09:10 make one bucket at 09:00 with sum -1.5 and count 2 |
| Examples.HotAndWarmTrend | app.py:288-303 | the same two markers make a trend of a single point at 09:00 with average -0.75 |

## Findings

| source | as written | input that shows it | evidently intended | confidence | as-written member | corrected member |
|---|---|---|---|---|---|---|
| app.py:309-311 | `comfort_color_label` treats an index of exactly 0 as "No Data" | a room with one "hot" and one "cold" marker: index (-1 + 1) / 2 = 0, so the map says "No Data" while the dashboards say "Ideal" | "No Data" only for a room without markers; index 0 with markers is "Ideal" | medium, not executed | ComfortIndex.ColorLabel (shown by Examples.HotAndColdRoom and ComfortIndex.ColorLabelAgreesWithComfort) | ComfortIndex.SwatchOf (proved by ComfortIndex.SwatchOfComfort, used by ComfortIndex.RoomSwatches) |

## Left out

- Flask routing, `render_template`, `jsonify`, `abort` and parsing `request.args` are HTTP and template I/O. So are the invalid-location 404 and the `hours` default.
- The Supabase and psycopg2 queries and the global client are the external datastore. The marker list is a parameter here.
- `datetime.utcnow()`, the cutoff, `fromisoformat` and the UTC handling are clock and parsing. A timestamp is an integer number of seconds.
- Trend.TrendOf: the trend labels are kept as the bucket hour in seconds. The `strftime("%H:%M")` text is not produced.
- ComfortIndex.ComfortOf: Python's `round(index, 2)` on binary floats is not modelled, so the contract is about the unrounded index. The rounded index the dashboards return can lie across a threshold from its label: 25 "cold" and 74 "ideal" markers are labelled "Cool" with index 0.2525..., reported as 0.25, an "Ideal" value.
- ComfortIndex.RoomComfort: the `"stats": dict(c)` copy of the room's counter in each `comfort_data` entry is not produced. It is the room's entry of Counting.RoomStats unchanged.
- ComfortIndex.Percent: `round(..., 1)` is not modelled either, so the percentages are exact. The "at most 100" property is stated before rounding.
- Counts are unbounded naturals, which Python's integers are too. The quotients are kept exact as reals, where Python computes binary floats. This covers `avg_comfort` (app.py:265) and the trend averages (app.py:300-303), which `api_comfort_data` returns unrounded. For example, 1 "hot" and 2 "ideal" markers give exactly -1/3 here and -0.3333333333333333 in Python.
- The static `locations` and `rooms_data` tables are constant display data. Only the `rect_to_poly` helper they call is modelled.
- The `print` logging in the handlers is output only.
- `email.py` only configures the mail extension. It holds no logic.
- `sorted(buckets.items())` compares the tuples. Its first components are distinct dictionary keys, so the order is decided by the hour alone. Sorting.SortedKeys sorts the hours and never compares buckets.
- The two counting loops of the dashboards (168-172, 360-364) build only `room_stats`. This equals the `RoomStats` part of Counting.CountMarkers, which models the larger loop at 240-247.
