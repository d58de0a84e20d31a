/** The weighted comfort index of a counter, its five-band label, the overall
    too-hot / too-cold percentages and the colour lookup of the map view
    (app.py: `compute_comfort_index`, `percent`, `comfort_color_label`).

    The source weighs marker types by exact halves, so the index is a `real`
    here; Python's `round` is not modelled: the index and the percentages
    are kept exact, and the labels are those of the unrounded index. */
module ComfortIndex {
  import opened Occurrences
  import opened Counting

  /** The marker types that carry a weight, in the order of the weight table. */
  const WeightKeys: seq<string> := ["hot", "warm", "ideal", "cool", "cold"]

  /** `w.get(k, 0)`: the weight of a marker type; any other type weighs 0. */
  function Weight(k: string): (w: real)
    ensures w == -1.0 || w == -0.5 || w == 0.0 || w == 0.5 || w == 1.0
    ensures k !in WeightKeys ==> w == 0.0
  {
    if k == "hot" then -1.0
    else if k == "warm" then -0.5
    else if k == "ideal" then 0.0
    else if k == "cool" then 0.5
    else if k == "cold" then 1.0
    else 0.0
  }

  /** The weighted counts of the keys `ks`, added up; it never exceeds the
      plain count of those keys in size, since every weight lies in [-1, 1]. */
  function WeightedSumOver(c: Counter, ks: seq<string>): (s: real)
    ensures -(SumCounts(c, ks) as real) <= s <= SumCounts(c, ks) as real
  {
    if ks == [] then 0.0 else Weight(ks[0]) * Get(c, ks[0]) as real + WeightedSumOver(c, ks[1..])
  }

  /** `sum(w.get(k, 0) * c[k] for k in w)`: never larger in size than the
      number of markers of the weighted types. */
  function WeightedSum(c: Counter): (s: real)
    ensures -(SumCounts(c, WeightKeys) as real) <= s <= SumCounts(c, WeightKeys) as real
  {
    WeightedSumOver(c, WeightKeys)
  }

  /** A counter whose weighted types do not outnumber its "total", as every
      counter built by the counting loop is (see `TallyIsConsistent`). */
  predicate Consistent(c: Counter)
  {
    SumCounts(c, WeightKeys) <= Get(c, TotalKey)
  }

  /** The comfort index as `api_comfort_data` returns it (app.py:250-262): the
      weighted sum over "total", and 0 for an empty counter. */
  function RawIndex(c: Counter): (r: real)
    ensures Get(c, TotalKey) == 0 ==> r == 0.0
    ensures Get(c, TotalKey) > 0 ==> r * Get(c, TotalKey) as real == WeightedSum(c)
  {
    var total := Get(c, TotalKey);
    if total == 0 then 0.0 else WeightedSum(c) / total as real
  }

  datatype Label = TooHot | Warm | Ideal | Cool | TooCold | NoData

  /** The threshold chain of `compute_comfort_index` (app.py:187-196): five
      bands with inclusive upper bounds -0.75, -0.25, 0.25 and 0.75. */
  function Classify(x: real): (l: Label)
    ensures l != NoData
    ensures l == TooHot <==> x <= -0.75
    ensures l == Warm <==> -0.75 < x <= -0.25
    ensures l == Ideal <==> -0.25 < x <= 0.25
    ensures l == Cool <==> 0.25 < x <= 0.75
    ensures l == TooCold <==> 0.75 < x
  {
    if x <= -0.75 then TooHot
    else if x <= -0.25 then Warm
    else if x <= 0.25 then Ideal
    else if x <= 0.75 then Cool
    else TooCold
  }

  /** Position of a band on the scale from hottest to coldest. */
  function Rank(l: Label): nat
  {
    match l
    case TooHot => 0
    case Warm => 1
    case Ideal => 2
    case Cool => 3
    case TooCold => 4
    case NoData => 5
  }

  /** The labels are monotone in the index: a colder index never gets a hotter label. */
  lemma ClassifyMonotone(x: real, y: real)
    requires x <= y
    ensures Rank(Classify(x)) <= Rank(Classify(y))
  {
  }

  /** The per-room result of the dashboards: index and label. */
  datatype Comfort = Comfort(index: real, category: Label)

  /** The weighted sum written out: hot and warm pull toward -1, cool and
      cold toward 1, and every other key (ideal, "total", unknown types) adds 0. */
  lemma WeightedSumExpanded(c: Counter)
    ensures WeightedSum(c)
         == -1.0 * Get(c, "hot") as real - 0.5 * Get(c, "warm") as real
            + 0.5 * Get(c, "cool") as real + 1.0 * Get(c, "cold") as real
  {
    var k1, k2, k3, k4: seq<string> := ["warm", "ideal", "cool", "cold"], ["ideal", "cool", "cold"], ["cool", "cold"], ["cold"];
    assert WeightKeys[1..] == k1 && k1[1..] == k2 && k2[1..] == k3 && k3[1..] == k4 && k4[1..] == [];
    var s4 := WeightedSumOver(c, k4);
    assert s4 == 1.0 * Get(c, "cold") as real + WeightedSumOver(c, []);
    var s3 := WeightedSumOver(c, k3);
    assert s3 == 0.5 * Get(c, "cool") as real + s4;
    var s2 := WeightedSumOver(c, k2);
    assert s2 == 0.0 * Get(c, "ideal") as real + s3;
    var s1 := WeightedSumOver(c, k1);
    assert s1 == -0.5 * Get(c, "warm") as real + s2;
    assert WeightedSum(c) == -1.0 * Get(c, "hot") as real + s1;
  }

  /** `compute_comfort_index` of `dashboard` and `new_dashboard` (app.py:175-197,
      367-389): "No Data" with index 0 for an empty counter, otherwise the same
      unrounded index as `api_comfort_data`'s copy, labelled by `Classify`.
      The dashboards report `round(index, 2)` beside that label, which can lie
      in the neighbouring band (see `Examples.RoundingCrossesThreshold`). */
  function ComfortOf(c: Counter): (r: Comfort)
    ensures r.category == NoData <==> Get(c, TotalKey) == 0
    ensures r.category == NoData ==> r.index == 0.0
    ensures r.index == RawIndex(c)
    ensures r.category != NoData ==> r.category == Classify(r.index)
  {
    var total := Get(c, TotalKey);
    if total == 0 then Comfort(0.0, NoData)
    else
      var index := WeightedSum(c) / total as real;
      Comfort(index, Classify(index))
  }

  /** The `comfort_data` dictionary of the dashboards (app.py:199-205), without
      the copy of the room's counter kept under "stats". */
  function RoomComfort(stats: map<string, Counter>): (r: map<string, Comfort>)
    ensures r.Keys == stats.Keys
    ensures forall room :: room in r ==> r[room] == ComfortOf(stats[room])
  {
    map room | room in stats :: ComfortOf(stats[room])
  }

  lemma {:induction false} TallyIsConsistent(es: seq<Marker>)
    ensures Consistent(Tally(es))
  {
    assert TotalKey !in WeightKeys;
    assert Distinct(WeightKeys);
    SumCountsOfTally(es, WeightKeys);
    SumOccBound(KindsOf(es), WeightKeys);
    TallyCount(es, TotalKey);
  }

  lemma DivisionBounded(s: real, t: real)
    requires 0.0 < t && -t <= s <= t
    ensures -1.0 <= s / t <= 1.0
  {
  }

  /** The index of a non-empty, consistent counter lies in [-1, 1]; an empty
      one has index 0 (no division happens). */
  lemma IndexBounded(c: Counter)
    requires Consistent(c)
    ensures -1.0 <= RawIndex(c) <= 1.0
    ensures Get(c, TotalKey) == 0 ==> RawIndex(c) == 0.0
  {
    var total := Get(c, TotalKey);
    if total > 0 {
      DivisionBounded(WeightedSum(c), total as real);
    }
  }

  /** Every room on the dashboards has data: its label is one of the five
      bands, never "No Data", and its index lies in [-1, 1]. */
  lemma EveryRoomHasData(data: seq<Marker>, room: string)
    requires room in RoomStats(data)
    ensures RoomComfort(RoomStats(data))[room].category != NoData
    ensures -1.0 <= RoomComfort(RoomStats(data))[room].index <= 1.0
  {
    RoomTotalCountsEntries(data, room);
    RoomStatsAt(data, room);
    TallyIsConsistent(RoomEntries(data, room));
    IndexBounded(RoomStats(data)[room]);
  }

  lemma {:induction false} WeightedSumIgnores(c: Counter, m: Marker, ks: seq<string>)
    requires m.kind !in ks && TotalKey !in ks
    ensures WeightedSumOver(Record(c, m), ks) == WeightedSumOver(c, ks)
  {
    if ks != [] {
      WeightedSumIgnores(c, m, ks[1..]);
    }
  }

  lemma Dilution(s: real, t: real, t': real)
    requires 0.0 < t <= t'
    ensures s >= 0.0 ==> 0.0 <= s / t' <= s / t
    ensures s <= 0.0 ==> s / t <= s / t' <= 0.0
  {
    assert s / t' == (s / t) * (t / t');
    assert 0.0 < t / t' <= 1.0;
  }

  /** Raising "total" while keeping the weighted sum pulls the index of a
      consistent counter toward 0, without crossing it. */
  lemma DilutedIndex(c: Counter, c': Counter)
    requires Consistent(c)
    requires WeightedSum(c') == WeightedSum(c) && Get(c', TotalKey) > Get(c, TotalKey)
    ensures RawIndex(c) >= 0.0 ==> 0.0 <= RawIndex(c') <= RawIndex(c)
    ensures RawIndex(c) <= 0.0 ==> RawIndex(c) <= RawIndex(c') <= 0.0
  {
    var t, t' := Get(c, TotalKey), Get(c', TotalKey);
    if t > 0 {
      Dilution(WeightedSum(c), t as real, t' as real);
    }
  }

  /** A marker of an unweighted type changes no weighted count but adds to
      "total", so it can only pull the index towards 0 (never across it). */
  lemma UnknownKindDilutes(es: seq<Marker>, m: Marker)
    requires m.kind !in WeightKeys
    ensures WeightedSum(Tally(es + [m])) == WeightedSum(Tally(es))
    ensures Get(Tally(es + [m]), TotalKey) > Get(Tally(es), TotalKey)
    ensures RawIndex(Tally(es)) >= 0.0 ==> 0.0 <= RawIndex(Tally(es + [m])) <= RawIndex(Tally(es))
    ensures RawIndex(Tally(es)) <= 0.0 ==> RawIndex(Tally(es)) <= RawIndex(Tally(es + [m])) <= 0.0
  {
    var before, after := Tally(es), Tally(es + [m]);
    assert WeightedSum(after) == WeightedSum(before) && Get(after, TotalKey) > Get(before, TotalKey) by {
      TallySnoc(es, m);
      assert TotalKey !in WeightKeys;
      WeightedSumIgnores(before, m, WeightKeys);
    }
    TallyIsConsistent(es);
    DilutedIndex(before, after);
  }

  /** `percent` (app.py:268-269) without rounding: a share of the overall
      total in percent, and 0 when there are no markers at all. */
  function Percent(count: nat, total: nat): (p: real)
    ensures total == 0 ==> p == 0.0
    ensures count <= total ==> 0.0 <= p <= 100.0
    ensures total > 0 ==> (p == 100.0 <==> count == total)
  {
    if total > 0 then count as real / total as real * 100.0 else 0.0
  }

  /** The overall figures `api_comfort_data` reports (app.py:265-273). */
  datatype Summary = Summary(avgComfort: real, tooHot: real, tooCold: real, totalSubmissions: nat)

  /** The figures of one overall counter: all 0 for an empty counter; for a
      consistent one, an average in [-1, 1] and two percentages that add up
      to at most 100 whenever the four counted types do not outnumber
      "total". */
  function Summarize(totalCounts: Counter): (s: Summary)
    ensures Get(totalCounts, TotalKey) == 0 ==> s == Summary(0.0, 0.0, 0.0, 0)
    ensures s.totalSubmissions == Get(totalCounts, TotalKey)
    ensures s.avgComfort == RawIndex(totalCounts)
    ensures s.tooHot == Percent(Get(totalCounts, "hot") + Get(totalCounts, "warm"), Get(totalCounts, TotalKey))
    ensures s.tooCold == Percent(Get(totalCounts, "cold") + Get(totalCounts, "cool"), Get(totalCounts, TotalKey))
    ensures Consistent(totalCounts) ==> -1.0 <= s.avgComfort <= 1.0
    ensures SumCounts(totalCounts, HotOrColdKeys) <= Get(totalCounts, TotalKey) ==> s.tooHot + s.tooCold <= 100.0
  {
    var total := Get(totalCounts, TotalKey);
    var hot, cold := Get(totalCounts, "hot") + Get(totalCounts, "warm"), Get(totalCounts, "cold") + Get(totalCounts, "cool");
    assert SumCounts(totalCounts, HotOrColdKeys) <= total ==> Percent(hot, total) + Percent(cold, total) <= 100.0 by {
      SumOfHotOrCold(totalCounts);
      if hot + cold <= total {
        PercentPair(hot, cold, total);
      }
    }
    assert Consistent(totalCounts) ==> -1.0 <= RawIndex(totalCounts) <= 1.0 by {
      if Consistent(totalCounts) {
        IndexBounded(totalCounts);
      }
    }
    Summary(RawIndex(totalCounts), Percent(hot, total), Percent(cold, total), total)
  }

  /** The overall figures of a marker list: `totalSubmissions` counts the
      markers (a marker of type "total" twice), the average comfort lies in
      [-1, 1], and with no markers every figure is 0. */
  lemma OverallSummary(data: seq<Marker>)
    ensures Summarize(Tally(data)).totalSubmissions == |data| + Occ(KindsOf(data), TotalKey)
    ensures -1.0 <= Summarize(Tally(data)).avgComfort <= 1.0
    ensures data == [] ==> Summarize(Tally(data)) == Summary(0.0, 0.0, 0.0, 0)
  {
    var c := Tally(data);
    assert Summarize(c).totalSubmissions == Get(c, TotalKey) && Summarize(c).avgComfort == RawIndex(c);
    TallyCount(data, TotalKey);
    TallyIsConsistent(data);
    IndexBounded(c);
  }

  /** The marker types counted by the two percentages. */
  const HotOrColdKeys: seq<string> := ["hot", "warm", "cold", "cool"]

  lemma PercentSum(a: nat, b: nat, t: nat)
    requires t > 0
    ensures Percent(a, t) + Percent(b, t) == (a + b) as real / t as real * 100.0
    ensures Percent(a, t) + Percent(b, t) <= 100.0 <==> a + b <= t
    ensures Percent(a, t) + Percent(b, t) == 100.0 <==> a + b == t
  {
    var x, y := a as real / t as real, b as real / t as real;
    assert x + y == (a + b) as real / t as real;
  }

  /** Two shares of one total: their percentages add up to at most 100, to
      exactly 100 when the shares make up the total, and are both 0 for an
      empty total. */
  lemma PercentPair(a: nat, b: nat, t: nat)
    requires a + b <= t
    ensures Percent(a, t) + Percent(b, t) <= 100.0
    ensures t == 0 ==> Percent(a, t) == 0.0 && Percent(b, t) == 0.0
    ensures t > 0 ==> (Percent(a, t) + Percent(b, t) == 100.0 <==> a + b == t)
  {
    if t > 0 {
      PercentSum(a, b, t);
    }
  }

  lemma HotOrColdKeysDistinct()
    ensures Distinct(HotOrColdKeys) && TotalKey !in HotOrColdKeys
  {
  }

  lemma SumOfHotOrCold(c: Counter)
    ensures SumCounts(c, HotOrColdKeys) == Get(c, "hot") + Get(c, "warm") + Get(c, "cold") + Get(c, "cool")
  {
    var ks := HotOrColdKeys;
    assert ks[1..] == ["warm", "cold", "cool"];
    assert ks[1..][1..] == ["cold", "cool"];
    assert ks[1..][1..][1..] == ["cool"];
    assert ks[1..][1..][1..][1..] == [];
    assert SumCounts(c, ["cool"]) == Get(c, "cool");
    assert SumCounts(c, ["cold", "cool"]) == Get(c, "cold") + Get(c, "cool");
  }

  /** The markers counted by the two percentages, against the "total" they are divided by. */
  lemma HotOrColdCount(data: seq<Marker>)
    ensures var c := Tally(data);
      && Get(c, "hot") + Get(c, "warm") + Get(c, "cold") + Get(c, "cool") + Outside(KindsOf(data), HotOrColdKeys) == |data|
      && Get(c, TotalKey) == |data| + Occ(KindsOf(data), TotalKey)
  {
    var c := Tally(data);
    SumOfHotOrCold(c);
    HotOrColdKeysDistinct();
    SumCountsOfTally(data, HotOrColdKeys);
    Partition(KindsOf(data), HotOrColdKeys);
    TallyCount(data, TotalKey);
  }

  lemma KindsWithin(data: seq<Marker>, ks: seq<string>)
    ensures (forall m :: m in data ==> m.kind in ks) <==> Outside(KindsOf(data), ks) == 0
  {
    if forall m :: m in data ==> m.kind in ks {
      forall x | x in KindsOf(data) ensures x in ks {
        var i :| 0 <= i < |data| && KindsOf(data)[i] == x;
        assert data[i] in data;
      }
    }
    if Outside(KindsOf(data), ks) == 0 {
      forall m | m in data ensures m.kind in ks {
        var i :| 0 <= i < |data| && data[i] == m;
        assert KindsOf(data)[i] in KindsOf(data);
      }
    }
  }

  /** The hot-or-warm and cold-or-cool counts together never exceed "total";
      they reach it exactly when every marker is of those four types, and
      "total" is 0 exactly when there are no markers. */
  lemma HotOrColdShare(data: seq<Marker>)
    ensures var c := Tally(data);
      && Get(c, "hot") + Get(c, "warm") + Get(c, "cold") + Get(c, "cool") <= Get(c, TotalKey)
      && (Get(c, TotalKey) == 0 <==> data == [])
      && (Get(c, "hot") + Get(c, "warm") + Get(c, "cold") + Get(c, "cool") == Get(c, TotalKey)
          <==> forall m :: m in data ==> m.kind in HotOrColdKeys)
  {
    HotOrColdCount(data);
    KindsWithin(data, HotOrColdKeys);
    if Outside(KindsOf(data), HotOrColdKeys) == 0 {
      HotOrColdKeysDistinct();
      assert TotalKey !in KindsOf(data);
    }
  }

  /** Too-hot plus too-cold never exceeds 100 percent, and reaches it exactly
      when every marker is hot, warm, cool or cold; with no markers both are 0. */
  lemma PercentagesAtMost100(data: seq<Marker>)
    ensures Summarize(Tally(data)).tooHot + Summarize(Tally(data)).tooCold <= 100.0
    ensures data == [] ==> Summarize(Tally(data)).tooHot == Summarize(Tally(data)).tooCold == 0.0
    ensures data != [] ==>
      (Summarize(Tally(data)).tooHot + Summarize(Tally(data)).tooCold == 100.0
       <==> forall m :: m in data ==> m.kind in HotOrColdKeys)
  {
    var c := Tally(data);
    var total := Get(c, TotalKey);
    var a := Get(c, "hot") + Get(c, "warm");
    var b := Get(c, "cold") + Get(c, "cool");
    assert Summarize(c).tooHot == Percent(a, total) && Summarize(c).tooCold == Percent(b, total);
    HotOrColdShare(data);
    PercentPair(a, b, total);
  }

  /** What a map swatch shows: a colour and a note. */
  datatype Swatch = Swatch(color: string, note: string)

  function LabelText(l: Label): string
  {
    match l
    case TooHot => "Too Hot"
    case Warm => "Warm"
    case Ideal => "Ideal"
    case Cool => "Cool"
    case TooCold => "Too Cold"
    case NoData => "No Data"
  }

  function LabelColor(l: Label): string
  {
    match l
    case TooHot => "#ef4444"
    case Warm => "#fca5a5"
    case Ideal => "#34d399"
    case Cool => "#a5b4fc"
    case TooCold => "#3b82f6"
    case NoData => "#e5e7eb"
  }

  /** `comfort_color_label` (app.py:309-321): an index of exactly 0 is shown
      as "No Data"; every other index gets the swatch of its `Classify` band. */
  function ColorLabel(index: real): (s: Swatch)
    ensures s.note == LabelText(if index == 0.0 then NoData else Classify(index))
    ensures s.color == LabelColor(if index == 0.0 then NoData else Classify(index))
  {
    if index == 0.0 then Swatch("#e5e7eb", "No Data")
    else if index <= -0.75 then Swatch("#ef4444", "Too Hot")
    else if index <= -0.25 then Swatch("#fca5a5", "Warm")
    else if index <= 0.25 then Swatch("#34d399", "Ideal")
    else if index <= 0.75 then Swatch("#a5b4fc", "Cool")
    else Swatch("#3b82f6", "Too Cold")
  }

  /** The map colours of `api_comfort_data` agree with the dashboards' labels,
      except for a room that has markers and an index of exactly 0: the
      dashboards call it "Ideal", the map calls it "No Data". */
  lemma ColorLabelAgreesWithComfort(c: Counter)
    ensures RawIndex(c) != 0.0 || Get(c, TotalKey) == 0 ==>
      ColorLabel(RawIndex(c)).note == LabelText(ComfortOf(c).category)
    ensures RawIndex(c) == 0.0 && Get(c, TotalKey) > 0 ==>
      ComfortOf(c).category == Ideal && ColorLabel(RawIndex(c)).note == "No Data"
  {
  }

  /** The swatch of a room's comfort result, keyed on its label rather than on
      the bare index, so that "No Data" means exactly that the room has no
      markers; every band keeps the colour and note of `comfort_color_label`. */
  function SwatchOf(r: Comfort): (s: Swatch)
    ensures s.note == "No Data" <==> r.category == NoData
    ensures r.category == Classify(r.index) && r.index != 0.0 ==> s == ColorLabel(r.index)
    ensures r.category == NoData ==> s == ColorLabel(0.0)
    ensures r.category == Ideal ==> s == ColorLabel(0.25)
  {
    Swatch(LabelColor(r.category), LabelText(r.category))
  }

  /** The corrected map swatch says "No Data" exactly for a room without
      markers, and otherwise agrees with `comfort_color_label` on every index
      but 0. */
  lemma SwatchOfComfort(c: Counter)
    ensures SwatchOf(ComfortOf(c)).note == "No Data" <==> Get(c, TotalKey) == 0
    ensures RawIndex(c) != 0.0 ==> SwatchOf(ComfortOf(c)) == ColorLabel(RawIndex(c))
    ensures Get(c, TotalKey) == 0 ==> SwatchOf(ComfortOf(c)) == ColorLabel(0.0)
    ensures Get(c, TotalKey) > 0 && RawIndex(c) == 0.0 ==> SwatchOf(ComfortOf(c)) == ColorLabel(0.25)
  {
  }

  /** The map swatch of every room, one per room counter (app.py:323-327),
      using the corrected lookup. */
  function RoomSwatches(stats: map<string, Counter>): (r: map<string, Swatch>)
    ensures r.Keys == stats.Keys
    ensures forall room :: room in r ==> r[room] == SwatchOf(ComfortOf(stats[room]))
    ensures forall room :: room in r ==> (r[room].note == "No Data" <==> Get(stats[room], TotalKey) == 0)
  {
    forall room | room in stats
      ensures SwatchOf(ComfortOf(stats[room])).note == "No Data" <==> Get(stats[room], TotalKey) == 0
    {
      SwatchOfComfort(stats[room]);
    }
    map room | room in stats :: SwatchOf(ComfortOf(stats[room]))
  }
}
