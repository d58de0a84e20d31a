/** The hourly trend of `api_comfort_data` (app.py:277-305): markers are put in
    buckets by the hour of their timestamp, each bucket adds up the weights of
    its markers and counts them, and the buckets, sorted by hour, give one
    average per hour.

    A timestamp is a whole number of seconds; truncating it to its hour is
    `t - t % 3600`. */
module Trend {
  import opened Occurrences
  import opened Counting
  import opened ComfortIndex
  import opened Sorting

  const SecondsPerHour: int := 3600

  /** `ts.replace(minute=0, second=0, microsecond=0)`: the start of the hour
      that contains `t`. */
  function HourOf(t: int): (h: int)
    ensures h <= t < h + SecondsPerHour
    ensures h % SecondsPerHour == 0
  {
    t - t % SecondsPerHour
  }

  /** The `{"sum": ..., "count": ...}` record of one hour. */
  datatype Bucket = Bucket(sum: real, count: nat)

  /** The hour of each marker, in order. */
  function HoursOf(es: seq<Marker>): (hs: seq<int>)
    ensures |hs| == |es|
    ensures forall i :: 0 <= i < |es| ==> hs[i] == HourOf(es[i].timestamp)
  {
    seq(|es|, i requires 0 <= i < |es| => HourOf(es[i].timestamp))
  }

  function HourSet(es: seq<Marker>): set<int>
  {
    set m | m in es :: HourOf(m.timestamp)
  }

  /** The markers of hour `h`, in their original order. */
  function HourEntries(es: seq<Marker>, h: int): (hs: seq<Marker>)
    ensures |hs| == Occ(HoursOf(es), h)
  {
    if es == [] then []
    else
      var init, last := es[..|es| - 1], es[|es| - 1];
      assert es == init + [last];
      assert HoursOf(es) == HoursOf(init) + [HourOf(last.timestamp)];
      OccSnoc(HoursOf(init), HourOf(last.timestamp), h);
      HourEntries(init, h) + (if HourOf(last.timestamp) == h then [last] else [])
  }

  /** The weights of the markers of `es`, added up; at most one per marker in size. */
  function ScoreSum(es: seq<Marker>): (s: real)
    ensures -(|es| as real) <= s <= |es| as real
  {
    if es == [] then 0.0 else ScoreSum(es[..|es| - 1]) + Weight(es[|es| - 1].kind)
  }

  function BucketOf(es: seq<Marker>): Bucket
  {
    Bucket(ScoreSum(es), |es|)
  }

  /** The `buckets` dictionary the bucketing loop leaves behind: one bucket per
      hour that has at least one marker. */
  function HourBuckets(es: seq<Marker>): map<int, Bucket>
  {
    map h | h in HourSet(es) :: BucketOf(HourEntries(es, h))
  }

  lemma HourEntriesSnoc(es: seq<Marker>, m: Marker, h: int)
    ensures HourOf(m.timestamp) == h ==> HourEntries(es + [m], h) == HourEntries(es, h) + [m]
    ensures HourOf(m.timestamp) != h ==> HourEntries(es + [m], h) == HourEntries(es, h)
  {
    assert (es + [m])[..|es + [m]| - 1] == es;
    assert HourEntries(es, h) + [] == HourEntries(es, h);
  }

  lemma ScoreSumSnoc(es: seq<Marker>, m: Marker)
    ensures ScoreSum(es + [m]) == ScoreSum(es) + Weight(m.kind)
  {
    assert (es + [m])[..|es + [m]| - 1] == es;
  }

  lemma HourSetSnoc(es: seq<Marker>, m: Marker)
    ensures HourSet(es + [m]) == HourSet(es) + {HourOf(m.timestamp)}
  {
    assert forall x :: x in es + [m] <==> x in es || x == m;
  }

  /** `HourEntries` keeps exactly the markers of hour `h`. */
  lemma {:induction false} HourEntriesMembers(es: seq<Marker>, h: int)
    ensures forall m :: m in HourEntries(es, h) <==> m in es && HourOf(m.timestamp) == h
  {
    if es != [] {
      var init, last := es[..|es| - 1], es[|es| - 1];
      assert es == init + [last];
      HourEntriesMembers(init, h);
    }
  }

  lemma HourEntriesEmpty(es: seq<Marker>, h: int)
    ensures HourEntries(es, h) == [] <==> h !in HourSet(es)
  {
    HourEntriesMembers(es, h);
    if h in HourSet(es) {
      var m :| m in es && HourOf(m.timestamp) == h;
      assert m in HourEntries(es, h);
    }
  }

  lemma HourBucketsAt(es: seq<Marker>, h: int)
    requires h in HourSet(es)
    ensures h in HourBuckets(es) && HourBuckets(es)[h] == BucketOf(HourEntries(es, h))
  {
  }

  /** Adds one marker to a bucket (app.py:293-295). */
  function AddTo(b: Bucket, m: Marker): (r: Bucket)
    ensures r.count == b.count + 1
    ensures -(b.count as real) <= b.sum <= b.count as real ==> -(r.count as real) <= r.sum <= r.count as real
  {
    Bucket(b.sum + Weight(m.kind), b.count + 1)
  }

  /** One more marker changes `HourBuckets` only at the marker's hour, whose
      bucket (empty if the hour is new) takes the marker. */
  lemma HourBucketsSnoc(es: seq<Marker>, m: Marker)
    ensures HourBuckets(es + [m])
         == HourBuckets(es)[HourOf(m.timestamp) :=
              AddTo(if HourOf(m.timestamp) in HourBuckets(es) then HourBuckets(es)[HourOf(m.timestamp)] else Bucket(0.0, 0), m)]
  {
    var hm := HourOf(m.timestamp);
    var before, after := HourBuckets(es), HourBuckets(es + [m]);
    var expected := before[hm := AddTo(if hm in before then before[hm] else Bucket(0.0, 0), m)];
    HourSetSnoc(es, m);
    forall h | h in after
      ensures after[h] == expected[h]
    {
      HourBucketsSnocAt(es, m, h);
    }
    MapExt(after, expected);
  }

  lemma HourBucketsSnocAt(es: seq<Marker>, m: Marker, h: int)
    requires h in HourSet(es + [m])
    ensures HourBuckets(es + [m])[h]
         == if h == HourOf(m.timestamp) then AddTo(if h in HourBuckets(es) then HourBuckets(es)[h] else Bucket(0.0, 0), m)
            else HourBuckets(es)[h]
  {
    HourSetSnoc(es, m);
    HourBucketsAt(es + [m], h);
    HourEntriesSnoc(es, m, h);
    if h == HourOf(m.timestamp) {
      ScoreSumSnoc(HourEntries(es, h), m);
      if h in HourBuckets(es) {
        HourBucketsAt(es, h);
      } else {
        HourEntriesEmpty(es, h);
      }
    } else {
      HourBucketsAt(es, h);
    }
  }

  lemma BucketsStep(data: seq<Marker>, i: int)
    requires 0 <= i < |data|
    ensures HourBuckets(data[..i + 1])
         == HourBuckets(data[..i])[HourOf(data[i].timestamp) :=
              AddTo(if HourOf(data[i].timestamp) in HourBuckets(data[..i])
                    then HourBuckets(data[..i])[HourOf(data[i].timestamp)] else Bucket(0.0, 0), data[i])]
  {
    assert data[..i + 1] == data[..i] + [data[i]];
    HourBucketsSnoc(data[..i], data[i]);
  }

  /** The bucketing loop (app.py:288-295). */
  method BuildBuckets(data: seq<Marker>) returns (buckets: map<int, Bucket>)
    ensures buckets == HourBuckets(data)
  {
    buckets := map[];
    var i := 0;
    while i < |data|
      invariant 0 <= i <= |data|
      invariant buckets == HourBuckets(data[..i])
    {
      var entry := data[i];
      var bucketHour := HourOf(entry.timestamp);
      var b := if bucketHour in buckets then buckets[bucketHour] else Bucket(0.0, 0);
      assert buckets[bucketHour := AddTo(b, entry)] == HourBuckets(data[..i + 1]) by {
        BucketsStep(data, i);
      }
      buckets := buckets[bucketHour := AddTo(b, entry)];
      i := i + 1;
    }
    assert data[..i] == data;
  }

  function HoursOfItems(items: seq<(int, Bucket)>): (hs: seq<int>)
    ensures |hs| == |items|
    ensures forall i :: 0 <= i < |items| ==> hs[i] == items[i].0
  {
    seq(|items|, i requires 0 <= i < |items| => items[i].0)
  }

  /** `sorted(buckets.items())` (app.py:298). `keys` lists the dictionary's
      keys in any order and with any repeats (the source iterates them in
      insertion order); the result has every bucket once, with its own hour,
      in strictly ascending hour order. Hours are distinct, so the pairs are
      ordered by hour alone. */
  function SortedItems(buckets: map<int, Bucket>, keys: seq<int>): (items: seq<(int, Bucket)>)
    requires forall h :: h in keys <==> h in buckets
    ensures |items| == |buckets|
    ensures forall i :: 0 <= i < |items| ==> items[i].0 in buckets && items[i].1 == buckets[items[i].0]
    ensures forall h :: h in buckets <==> h in HoursOfItems(items)
    ensures StrictlyAscending(HoursOfItems(items))
  {
    var hs := SortedKeys(keys);
    AscendingIsDistinct(hs);
    DistinctCardinality(hs);
    assert (set x | x in hs) == buckets.Keys;
    var items := seq(|hs|, i requires 0 <= i < |hs| => (hs[i], buckets[hs[i]]));
    assert HoursOfItems(items) == hs;
    items
  }

  /** One point of the trend: the hour and its average comfort score. */
  datatype TrendPoint = TrendPoint(hour: int, value: real)

  /** The bucket's average score, guarded against an empty bucket (app.py:301). */
  function Average(b: Bucket): (a: real)
    ensures -(b.count as real) <= b.sum <= b.count as real ==> -1.0 <= a <= 1.0
    ensures b.count == 0 ==> a == 0.0
    ensures b.count > 0 ==> a * b.count as real == b.sum
  {
    if b.count > 0 then
      assert -(b.count as real) <= b.sum <= b.count as real ==> -1.0 <= b.sum / b.count as real <= 1.0 by {
        if -(b.count as real) <= b.sum <= b.count as real {
          DivisionBounded(b.sum, b.count as real);
        }
      }
      b.sum / b.count as real
    else 0.0
  }

  function HoursOfTrend(points: seq<TrendPoint>): (hs: seq<int>)
    ensures |hs| == |points|
    ensures forall i :: 0 <= i < |points| ==> hs[i] == points[i].hour
  {
    seq(|points|, i requires 0 <= i < |points| => points[i].hour)
  }

  /** `trend_labels` and `trend_values` (app.py:299-303), zipped: one point per
      bucket, in strictly ascending hour order, each the average of its own
      bucket. The label is kept as the bucket's hour rather than formatted. */
  function TrendOf(buckets: map<int, Bucket>, keys: seq<int>): (points: seq<TrendPoint>)
    requires forall h :: h in keys <==> h in buckets
    ensures |points| == |buckets|
    ensures forall i :: 0 <= i < |points| ==>
      points[i].hour in buckets && points[i].value == Average(buckets[points[i].hour])
    ensures forall h :: h in buckets <==> h in HoursOfTrend(points)
    ensures StrictlyAscending(HoursOfTrend(points))
  {
    var items := SortedItems(buckets, keys);
    var points := seq(|items|, i requires 0 <= i < |items| => TrendPoint(items[i].0, Average(items[i].1)));
    assert HoursOfTrend(points) == HoursOfItems(items);
    points
  }

  /** The counts of the buckets, added up. */
  function CountSum(items: seq<(int, Bucket)>): nat
  {
    if items == [] then 0 else items[0].1.count + CountSum(items[1..])
  }

  lemma {:induction false} CountSumIsOccurrences(data: seq<Marker>, items: seq<(int, Bucket)>)
    requires forall i :: 0 <= i < |items| ==>
      items[i].0 in HourBuckets(data) && items[i].1 == HourBuckets(data)[items[i].0]
    ensures CountSum(items) == SumOcc(HoursOf(data), HoursOfItems(items))
  {
    if items != [] {
      CountSumIsOccurrences(data, items[1..]);
      assert HoursOfItems(items)[1..] == HoursOfItems(items[1..]);
      HourBucketsAt(data, items[0].0);
    }
  }

  /** Every bucket built from the markers holds at least one marker, and its
      score sum is at most its count in size. */
  lemma BucketsNonEmpty(data: seq<Marker>, h: int)
    requires h in HourBuckets(data)
    ensures HourBuckets(data)[h].count >= 1
    ensures -(HourBuckets(data)[h].count as real) <= HourBuckets(data)[h].sum <= HourBuckets(data)[h].count as real
  {
    HourBucketsAt(data, h);
    HourEntriesEmpty(data, h);
  }

  /** The bucket hours are exactly the hours of the markers. */
  lemma BucketHours(data: seq<Marker>)
    ensures forall h :: h in HoursOf(data) <==> h in HourBuckets(data)
  {
    forall h ensures h in HoursOf(data) <==> h in HourSet(data) {
      if h in HoursOf(data) {
        var k :| 0 <= k < |data| && HoursOf(data)[k] == h;
        assert data[k] in data;
      }
      if h in HourSet(data) {
        var m :| m in data && HourOf(m.timestamp) == h;
        var k :| 0 <= k < |data| && data[k] == m;
        assert HoursOf(data)[k] == h;
      }
    }
  }

  /** `sorted_buckets` of a marker list: its buckets, sorted by hour. */
  function SortedBucketsOf(data: seq<Marker>): (items: seq<(int, Bucket)>)
    ensures forall i :: 0 <= i < |items| ==> items[i].0 in HourBuckets(data) && items[i].1 == HourBuckets(data)[items[i].0]
    ensures forall h :: h in HoursOf(data) <==> h in HoursOfItems(items)
    ensures StrictlyAscending(HoursOfItems(items))
  {
    BucketHours(data);
    SortedItems(HourBuckets(data), HoursOf(data))
  }

  /** The trend of a marker list (`trend_labels` and `trend_values`, zipped). */
  function TrendOfMarkers(data: seq<Marker>): (points: seq<TrendPoint>)
    ensures forall i :: 0 <= i < |points| ==>
      points[i].hour in HourBuckets(data) && points[i].value == Average(HourBuckets(data)[points[i].hour])
    ensures forall h :: h in HoursOf(data) <==> h in HoursOfTrend(points)
    ensures StrictlyAscending(HoursOfTrend(points))
  {
    BucketHours(data);
    TrendOf(HourBuckets(data), HoursOf(data))
  }

  /** The trend of a marker list: one point per hour that has markers, in
      strictly ascending hour order, every average in [-1, 1]; the sorted
      buckets are non-empty and their counts add up to the number of markers. */
  lemma TrendProperties(data: seq<Marker>)
    ensures forall h :: h in HourSet(data) <==> h in HoursOfTrend(TrendOfMarkers(data))
    ensures StrictlyAscending(HoursOfTrend(TrendOfMarkers(data)))
    ensures forall p :: p in TrendOfMarkers(data) ==> -1.0 <= p.value <= 1.0
    ensures forall i :: 0 <= i < |SortedBucketsOf(data)| ==> SortedBucketsOf(data)[i].1.count >= 1
    ensures CountSum(SortedBucketsOf(data)) == |data|
  {
    var buckets := HourBuckets(data);
    BucketHours(data);
    var items := SortedBucketsOf(data);
    var points := TrendOfMarkers(data);
    forall p | p in points
      ensures -1.0 <= p.value <= 1.0
    {
      BucketsNonEmpty(data, p.hour);
    }
    forall i | 0 <= i < |items|
      ensures items[i].1.count >= 1
    {
      BucketsNonEmpty(data, items[i].0);
    }
    CountsCoverData(data);
  }

  /** `a` is the mean of `n` values that add up to `s`. */
  predicate IsMean(a: real, s: real, n: nat)
  {
    n > 0 && a * n as real == s
  }

  /** Every trend value is its hour's average: the mean of the weights of the
      markers of that hour. */
  lemma TrendAverages(data: seq<Marker>)
    ensures forall p :: p in TrendOfMarkers(data) ==>
      IsMean(p.value, ScoreSum(HourEntries(data, p.hour)), Occ(HoursOf(data), p.hour))
  {
    forall p | p in TrendOfMarkers(data)
      ensures IsMean(p.value, ScoreSum(HourEntries(data, p.hour)), Occ(HoursOf(data), p.hour))
    {
      var i :| 0 <= i < |TrendOfMarkers(data)| && TrendOfMarkers(data)[i] == p;
      HourAverage(data, p.hour);
    }
  }

  /** The bucket of an hour that has markers averages their weights. */
  lemma HourAverage(data: seq<Marker>, h: int)
    requires h in HourBuckets(data)
    ensures IsMean(Average(HourBuckets(data)[h]), ScoreSum(HourEntries(data, h)), Occ(HoursOf(data), h))
  {
    var b := HourBuckets(data)[h];
    assert b == BucketOf(HourEntries(data, h)) by {
      HourBucketsAt(data, h);
    }
    assert b.count > 0 by {
      BucketsNonEmpty(data, h);
    }
    AverageIsMean(b);
  }

  lemma AverageIsMean(b: Bucket)
    requires b.count > 0
    ensures IsMean(Average(b), b.sum, b.count)
  {
  }

  lemma CountsCoverData(data: seq<Marker>)
    ensures CountSum(SortedBucketsOf(data)) == |data|
  {
    BucketHours(data);
    var buckets := HourBuckets(data);
    var items := SortedBucketsOf(data);
    var hs := HoursOfItems(items);
    CountSumIsOccurrences(data, items);
    AscendingIsDistinct(hs);
    Partition(HoursOf(data), hs);
    assert forall x :: x in HoursOf(data) ==> x in hs;
  }
}
