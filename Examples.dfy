/** Concrete marker lists and what the aggregation makes of them. */
module Examples {
  import opened Occurrences
  import opened Counting
  import opened ComfortIndex
  import opened Trend

  /** Markers all of one type `k` (other than "total"): `k` and "total" both
      count every marker, and every other key reads 0. */
  lemma {:induction false} UniformTally(es: seq<Marker>, k: string)
    requires k != TotalKey
    requires forall m :: m in es ==> m.kind == k
    ensures Get(Tally(es), k) == |es| && Get(Tally(es), TotalKey) == |es|
    ensures forall j :: j != k && j != TotalKey ==> Get(Tally(es), j) == 0
  {
    if es != [] {
      var init, last := es[..|es| - 1], es[|es| - 1];
      assert es == init + [last];
      assert last in es;
      UniformTally(init, k);
      TallySnoc(init, last);
    }
  }

  /** Markers all of one room `r` make a single room counter, the tally of all of them. */
  lemma SingleRoom(es: seq<Marker>, r: string)
    requires es != []
    requires forall m :: m in es ==> m.roomId == r
    ensures RoomStats(es) == map[r := Tally(es)]
  {
    assert RoomStats(es).Keys == {r} by {
      RoomSetSingle(es, r);
    }
    assert RoomStats(es)[r] == Tally(es) by {
      RoomSetSingle(es, r);
      RoomEntriesAll(es, r);
      RoomStatsAt(es, r);
    }
    MapExt(RoomStats(es), map[r := Tally(es)]);
  }

  lemma RoomSetSingle(es: seq<Marker>, r: string)
    requires es != []
    requires forall m :: m in es ==> m.roomId == r
    ensures RoomSet(es) == {r}
  {
    assert es[0] in es;
  }

  lemma {:induction false} RoomEntriesAll(es: seq<Marker>, r: string)
    requires forall m :: m in es ==> m.roomId == r
    ensures RoomEntries(es, r) == es
  {
    if es != [] {
      var init, last := es[..|es| - 1], es[|es| - 1];
      assert es == init + [last];
      assert last in es;
      RoomEntriesAll(init, r);
      RoomEntriesSnoc(init, last, r);
    }
  }

  /** The counter of two markers. */
  lemma PairTally(a: Marker, b: Marker)
    ensures forall k ::
      Get(Tally([a, b]), k) == (if a.kind == k then 1 else 0) + (if b.kind == k then 1 else 0) + (if k == TotalKey then 2 else 0)
  {
    assert [] + [a] == [a] && [a] + [b] == [a, b];
    TallySnoc([], a);
    TallySnoc([a], b);
  }

  /** The counter of one "hot" and one "cold" marker has index 0 and is "Ideal". */
  lemma HotAndColdCounter(hot: Marker, cold: Marker)
    requires hot.kind == "hot" && cold.kind == "cold"
    ensures RawIndex(Tally([hot, cold])) == 0.0 && ComfortOf(Tally([hot, cold])) == Comfort(0.0, Ideal)
  {
    PairTally(hot, cold);
    var c := Tally([hot, cold]);
    assert "hot"[0] != "warm"[0] && "hot"[0] != "cool"[0] && "hot"[0] != "cold"[0] && "hot"[0] != "total"[0];
    assert "cold"[0] != "warm"[0] && "cold"[2] != "cool"[2] && "cold"[0] != "total"[0];
    assert Get(c, "hot") == 1 && Get(c, "warm") == 0 && Get(c, "cool") == 0 && Get(c, "cold") == 1;
    assert Get(c, TotalKey) == 2;
    WeightedSumExpanded(c);
  }

  /** One "hot" and one "cold" marker in room A: index (-1 + 1) / 2 = 0, so the
      dashboards call the room "Ideal", while the map swatch of
      `comfort_color_label` calls it "No Data". The corrected swatch shows
      "Ideal". */
  lemma HotAndColdRoom()
    ensures var data := [Marker("A", "hot", 0), Marker("A", "cold", 0)];
      "A" in RoomStats(data)
      && ComfortOf(RoomStats(data)["A"]) == Comfort(0.0, Ideal)
      && ColorLabel(RawIndex(RoomStats(data)["A"])).note == "No Data"
      && SwatchOf(ComfortOf(RoomStats(data)["A"])).note == "Ideal"
  {
    var hot, cold := Marker("A", "hot", 0), Marker("A", "cold", 0);
    SingleRoom([hot, cold], "A");
    HotAndColdCounter(hot, cold);
  }

  /** Four "ideal" markers in room B: index 0, label "Ideal", total 4. */
  lemma FourIdeal()
    ensures var m := Marker("B", "ideal", 0);
      Get(Tally([m, m, m, m]), TotalKey) == 4 && ComfortOf(Tally([m, m, m, m])) == Comfort(0.0, Ideal)
  {
    var m := Marker("B", "ideal", 0);
    UniformTally([m, m, m, m], "ideal");
    var c := Tally([m, m, m, m]);
    assert "ideal"[0] != "hot"[0] && "ideal"[0] != "warm"[0] && "ideal"[0] != "cool"[0] && "ideal"[0] != "cold"[0];
    WeightedSumExpanded(c);
  }

  /** A counter holding 25 "cold", 74 "ideal" and total 99, as 25 "cold" and
      74 "ideal" markers give: the unrounded index 25/99 lies above
      0.25, so the label is "Cool", while the index rounded to two places,
      0.25, lies in the "Ideal" band. */
  lemma RoundingCrossesThreshold()
    ensures var c := map["cold" := 25, "ideal" := 74, TotalKey := 99];
      ComfortOf(c) == Comfort(25.0 / 99.0, Cool) && Classify(0.25) == Ideal
  {
    var c := map["cold" := 25, "ideal" := 74, TotalKey := 99];
    assert "cold"[0] != "hot"[0] && "cold"[0] != "warm"[0] && "cold"[2] != "cool"[2] && "cold"[0] != "ideal"[0];
    assert "ideal"[0] != "hot"[0] && "ideal"[0] != "warm"[0] && "ideal"[0] != "cool"[0];
    assert "total"[0] != "hot"[0] && "total"[0] != "warm"[0] && "total"[0] != "cool"[0];
    assert Get(c, "hot") == 0 && Get(c, "warm") == 0 && Get(c, "cool") == 0 && Get(c, "cold") == 25;
    WeightedSumExpanded(c);
  }

  /** The thresholds are inclusive upper bounds. */
  lemma ThresholdBoundary()
    ensures Classify(-0.75) == TooHot && Classify(-0.749999) == Warm
    ensures Classify(0.0) == Ideal && Classify(0.25) == Ideal && Classify(0.75) == Cool
  {
  }

  lemma ExtremeWeights()
    ensures Weight("hot") == -1.0 && Weight("cold") == 1.0
  {
  }

  lemma {:induction false} HourEntriesAll(es: seq<Marker>, h: int)
    requires forall m :: m in es ==> HourOf(m.timestamp) == h
    ensures HourEntries(es, h) == es
  {
    if es != [] {
      var init, last := es[..|es| - 1], es[|es| - 1];
      assert es == init + [last];
      assert last in es;
      HourEntriesAll(init, h);
      HourEntriesSnoc(init, last, h);
    }
  }

  /** Markers all of one hour `h` make a single bucket, holding all of them. */
  lemma SameHourBuckets(es: seq<Marker>, h: int)
    requires es != []
    requires forall m :: m in es ==> HourOf(m.timestamp) == h
    ensures HourBuckets(es) == map[h := BucketOf(es)]
  {
    assert HourBuckets(es).Keys == {h} by {
      assert es[0] in es;
    }
    assert HourBuckets(es)[h] == BucketOf(es) by {
      assert es[0] in es;
      HourEntriesAll(es, h);
      HourBucketsAt(es, h);
    }
    MapExt(HourBuckets(es), map[h := BucketOf(es)]);
  }

  /** A "hot" marker at 09:00 and a "cold" one at 09:45 fall in one bucket,
      09:00, holding two markers whose weights cancel. */
  lemma OneHourBuckets()
    ensures HourBuckets([Marker("A", "hot", 9 * 3600), Marker("A", "cold", 9 * 3600 + 45 * 60)])
         == map[9 * 3600 := Bucket(0.0, 2)]
  {
    var hot, cold := Marker("A", "hot", 9 * 3600), Marker("A", "cold", 9 * 3600 + 45 * 60);
    assert HourOf(hot.timestamp) == 9 * 3600 && HourOf(cold.timestamp) == 9 * 3600;
    SameHourBuckets([hot, cold], 9 * 3600);
    assert ScoreSum([hot, cold]) == 0.0 by {
      ExtremeWeights();
      assert [hot, cold][..1] == [hot] && [hot][..0] == [];
    }
  }

  /** One bucket makes a trend of one point, its average at its hour. */
  lemma OneBucketTrend(h: int, b: Bucket, keys: seq<int>)
    requires forall k :: k in keys <==> k == h
    ensures TrendOf(map[h := b], keys) == [TrendPoint(h, Average(b))]
  {
    var points := TrendOf(map[h := b], keys);
    assert |points| == 1;
    assert points[0].hour in map[h := b];
  }

  /** The same two markers make a trend of one point, at 09:00, with average 0. */
  lemma OneHourTrend()
    ensures TrendOfMarkers([Marker("A", "hot", 9 * 3600), Marker("A", "cold", 9 * 3600 + 45 * 60)])
         == [TrendPoint(9 * 3600, 0.0)]
  {
    var data := [Marker("A", "hot", 9 * 3600), Marker("A", "cold", 9 * 3600 + 45 * 60)];
    OneHourBuckets();
    BucketHours(data);
    OneBucketTrend(9 * 3600, Bucket(0.0, 2), HoursOf(data));
  }

  /** A "hot" marker at 09:00 and a "warm" one at 09:10 fall in one bucket,
      09:00, with weights -1 and -0.5. */
  lemma HotAndWarmBuckets()
    ensures HourBuckets([Marker("A", "hot", 9 * 3600), Marker("B", "warm", 9 * 3600 + 10 * 60)])
         == map[9 * 3600 := Bucket(-1.5, 2)]
  {
    var hot, warm := Marker("A", "hot", 9 * 3600), Marker("B", "warm", 9 * 3600 + 10 * 60);
    assert HourOf(hot.timestamp) == 9 * 3600 && HourOf(warm.timestamp) == 9 * 3600;
    SameHourBuckets([hot, warm], 9 * 3600);
    assert ScoreSum([hot, warm]) == -1.5 by {
      assert Weight("hot") == -1.0 && Weight("warm") == -0.5;
      assert [hot, warm][..1] == [hot] && [hot][..0] == [];
    }
  }

  /** The same two markers make a trend of one point, at 09:00, with the
      average -0.75. */
  lemma HotAndWarmTrend()
    ensures TrendOfMarkers([Marker("A", "hot", 9 * 3600), Marker("B", "warm", 9 * 3600 + 10 * 60)])
         == [TrendPoint(9 * 3600, -0.75)]
  {
    var data := [Marker("A", "hot", 9 * 3600), Marker("B", "warm", 9 * 3600 + 10 * 60)];
    HotAndWarmBuckets();
    BucketHours(data);
    OneBucketTrend(9 * 3600, Bucket(-1.5, 2), HoursOf(data));
  }
}
