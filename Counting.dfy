/** Per-room and overall counting of marker events (app.py, the loops of the
    `dashboard`, `api_comfort_data` and `new_dashboard` handlers).

    A Python `Counter` is a map from key to count in which a missing key reads
    as 0; here it is a `map<string, nat>` read through `Get`. Besides one key
    per marker type, every counter carries the synthetic key "total". */
module Counting {
  import opened Occurrences

  /** One row of the markers table, as the aggregation sees it: the room, the
      marker type ("hot", "warm", "ideal", "cool", "cold" or anything else the
      client sent) and the timestamp in seconds. */
  datatype Marker = Marker(roomId: string, kind: string, timestamp: int)

  type Counter = map<string, nat>

  const TotalKey: string := "total"

  /** `c[k]` on a Python Counter: 0 for a key it has never seen. */
  function Get(c: Counter, k: string): nat
  {
    if k in c then c[k] else 0
  }

  /** `c[k] += 1` on a Counter. */
  function Bump(c: Counter, k: string): (r: Counter)
    ensures r.Keys == c.Keys + {k}
    ensures Get(r, k) == Get(c, k) + 1
    ensures forall j :: j != k ==> Get(r, j) == Get(c, j)
  {
    c[k := Get(c, k) + 1]
  }

  /** What one marker does to a counter: its type and "total" each go up by one
      (so a marker whose type is literally "total" adds two to "total"). */
  function Record(c: Counter, m: Marker): (r: Counter)
    ensures r.Keys == c.Keys + {m.kind, TotalKey}
    ensures forall k :: Get(r, k) == Get(c, k) + (if k == m.kind then 1 else 0) + (if k == TotalKey then 1 else 0)
  {
    Bump(Bump(c, m.kind), TotalKey)
  }

  /** The counter a sequence of markers produces, one `Record` per marker in order. */
  function Tally(es: seq<Marker>): Counter
  {
    if es == [] then map[] else Record(Tally(es[..|es| - 1]), es[|es| - 1])
  }

  /** The marker types of `es`, in order. */
  function KindsOf(es: seq<Marker>): (ks: seq<string>)
    ensures |ks| == |es|
    ensures forall i :: 0 <= i < |es| ==> ks[i] == es[i].kind
  {
    seq(|es|, i requires 0 <= i < |es| => es[i].kind)
  }

  /** The room ids of `es`, in order. */
  function RoomsOf(es: seq<Marker>): (rs: seq<string>)
    ensures |rs| == |es|
    ensures forall i :: 0 <= i < |es| ==> rs[i] == es[i].roomId
  {
    seq(|es|, i requires 0 <= i < |es| => es[i].roomId)
  }

  function RoomSet(es: seq<Marker>): set<string>
  {
    set m | m in es :: m.roomId
  }

  function KindSet(es: seq<Marker>): set<string>
  {
    set m | m in es :: m.kind
  }

  /** The markers of room `r`, in their original order. */
  function RoomEntries(es: seq<Marker>, r: string): (rs: seq<Marker>)
    ensures |rs| == Occ(RoomsOf(es), r)
  {
    if es == [] then []
    else
      var init, last := es[..|es| - 1], es[|es| - 1];
      assert es == init + [last];
      assert RoomsOf(es) == RoomsOf(init) + [last.roomId];
      OccSnoc(RoomsOf(init), last.roomId, r);
      RoomEntries(init, r) + (if last.roomId == r then [last] else [])
  }

  /** The `room_stats` dictionary the counting loop leaves behind: one counter
      per room that has at least one marker. */
  function RoomStats(es: seq<Marker>): map<string, Counter>
  {
    map r | r in RoomSet(es) :: Tally(RoomEntries(es, r))
  }

  lemma RoomEntriesSnoc(es: seq<Marker>, m: Marker, r: string)
    ensures m.roomId == r ==> RoomEntries(es + [m], r) == RoomEntries(es, r) + [m]
    ensures m.roomId != r ==> RoomEntries(es + [m], r) == RoomEntries(es, r)
  {
    assert (es + [m])[..|es + [m]| - 1] == es;
    assert RoomEntries(es, r) + [] == RoomEntries(es, r);
  }

  lemma TallySnoc(es: seq<Marker>, m: Marker)
    ensures Tally(es + [m]) == Record(Tally(es), m)
  {
    assert (es + [m])[..|es + [m]| - 1] == es;
  }

  lemma RoomSetSnoc(es: seq<Marker>, m: Marker)
    ensures RoomSet(es + [m]) == RoomSet(es) + {m.roomId}
  {
    assert forall x :: x in es + [m] <==> x in es || x == m;
  }

  /** One more marker changes `RoomStats` only at the marker's room, whose
      counter (empty if the room is new) records the marker. */
  lemma RoomStatsSnoc(es: seq<Marker>, m: Marker)
    ensures RoomStats(es + [m])
         == RoomStats(es)[m.roomId := Record(if m.roomId in RoomStats(es) then RoomStats(es)[m.roomId] else map[], m)]
  {
    var before, after := RoomStats(es), RoomStats(es + [m]);
    var expected := before[m.roomId := Record(if m.roomId in before then before[m.roomId] else map[], m)];
    RoomSetSnoc(es, m);
    forall r | r in after
      ensures after[r] == expected[r]
    {
      RoomStatsSnocAt(es, m, r);
    }
    MapExt(after, expected);
  }

  lemma RoomStatsSnocAt(es: seq<Marker>, m: Marker, r: string)
    requires r in RoomSet(es + [m])
    ensures RoomStats(es + [m])[r]
         == if r == m.roomId then Record(if r in RoomStats(es) then RoomStats(es)[r] else map[], m) else RoomStats(es)[r]
  {
    RoomSetSnoc(es, m);
    RoomStatsAt(es + [m], r);
    RoomEntriesSnoc(es, m, r);
    if r == m.roomId {
      TallySnoc(RoomEntries(es, r), m);
      if r in RoomStats(es) {
        RoomStatsAt(es, r);
      } else {
        RoomEntriesEmpty(es, r);
      }
    } else {
      RoomStatsAt(es, r);
    }
  }

  /** `RoomEntries` keeps exactly the markers of room `r`. */
  lemma {:induction false} RoomEntriesMembers(es: seq<Marker>, r: string)
    ensures forall m :: m in RoomEntries(es, r) <==> m in es && m.roomId == r
  {
    if es != [] {
      var init, last := es[..|es| - 1], es[|es| - 1];
      assert es == init + [last];
      RoomEntriesMembers(init, r);
    }
  }

  lemma RoomEntriesEmpty(es: seq<Marker>, r: string)
    ensures RoomEntries(es, r) == [] <==> r !in RoomSet(es)
  {
    RoomEntriesMembers(es, r);
    if r in RoomSet(es) {
      var m :| m in es && m.roomId == r;
      assert m in RoomEntries(es, r);
    }
  }

  lemma RoomStatsAt(es: seq<Marker>, r: string)
    requires r in RoomSet(es)
    ensures r in RoomStats(es) && RoomStats(es)[r] == Tally(RoomEntries(es, r))
  {
  }

  lemma CountStep(data: seq<Marker>, i: int)
    requires 0 <= i < |data|
    ensures RoomStats(data[..i + 1])
         == RoomStats(data[..i])[data[i].roomId :=
              Record(if data[i].roomId in RoomStats(data[..i]) then RoomStats(data[..i])[data[i].roomId] else map[], data[i])]
    ensures Tally(data[..i + 1]) == Record(Tally(data[..i]), data[i])
  {
    assert data[..i + 1] == data[..i] + [data[i]];
    RoomStatsSnoc(data[..i], data[i]);
    TallySnoc(data[..i], data[i]);
  }

  /** The counting loop (app.py:240-247; the dashboards' copies at 168-172 and
      360-364 are the same loop without `total_counts`). */
  method CountMarkers(data: seq<Marker>) returns (roomStats: map<string, Counter>, totalCounts: Counter)
    ensures roomStats == RoomStats(data)
    ensures totalCounts == Tally(data)
  {
    roomStats, totalCounts := map[], map[];
    var i := 0;
    while i < |data|
      invariant 0 <= i <= |data|
      invariant roomStats == RoomStats(data[..i])
      invariant totalCounts == Tally(data[..i])
    {
      var entry := data[i];
      var room := entry.roomId;
      CountStep(data, i);
      var counts: Counter := if room in roomStats then roomStats[room] else map[];
      counts := Bump(counts, entry.kind);
      counts := Bump(counts, TotalKey);
      roomStats := roomStats[room := counts];
      totalCounts := Bump(totalCounts, entry.kind);
      totalCounts := Bump(totalCounts, TotalKey);
      i := i + 1;
    }
    assert data[..i] == data;
  }

  /** The counts of the keys `ks`, added up. */
  function SumCounts(c: Counter, ks: seq<string>): nat
  {
    if ks == [] then 0 else Get(c, ks[0]) + SumCounts(c, ks[1..])
  }

  /** What a tally holds: each marker type counts its markers, and "total"
      counts every marker once more (so it equals the number of markers plus
      the number of markers whose type is itself "total"). */
  lemma {:induction false} TallyCount(es: seq<Marker>, k: string)
    ensures Get(Tally(es), k) == Occ(KindsOf(es), k) + (if k == TotalKey then |es| else 0)
  {
    if es != [] {
      var init, last := es[..|es| - 1], es[|es| - 1];
      assert es == init + [last];
      assert KindsOf(es) == KindsOf(init) + [last.kind];
      TallyCount(init, k);
      OccSnoc(KindsOf(init), last.kind, k);
    }
  }

  /** A tally has a key for each marker type seen, plus "total" once any marker was seen. */
  lemma {:induction false} TallyKeys(es: seq<Marker>)
    ensures Tally(es).Keys == if es == [] then {} else KindSet(es) + {TotalKey}
  {
    if es != [] {
      var init, last := es[..|es| - 1], es[|es| - 1];
      assert es == init + [last];
      TallyKeys(init);
      assert KindSet(es) == KindSet(init) + {last.kind} by {
        assert forall x :: x in es <==> x in init || x == last;
      }
    }
  }

  lemma {:induction false} SumCountsOfTally(es: seq<Marker>, ks: seq<string>)
    requires TotalKey !in ks
    ensures SumCounts(Tally(es), ks) == SumOcc(KindsOf(es), ks)
  {
    if ks != [] {
      TallyCount(es, ks[0]);
      assert ks[0] != TotalKey;
      SumCountsOfTally(es, ks[1..]);
    }
  }

  lemma KindsCovered(es: seq<Marker>, ks: seq<string>)
    requires forall m :: m in es ==> m.kind in ks
    ensures forall x :: x in KindsOf(es) ==> x in ks
  {
    forall x | x in KindsOf(es) ensures x in ks {
      var i :| 0 <= i < |es| && KindsOf(es)[i] == x;
      assert es[i] in es;
    }
  }

  /** The counts add up: over any list of distinct marker types, the per-type
      counts plus the markers of other types make up all markers, and the
      "total" key holds that number when no marker's type is "total". */
  lemma CountsAddUp(es: seq<Marker>, ks: seq<string>)
    requires Distinct(ks) && TotalKey !in ks
    ensures SumCounts(Tally(es), ks) + Outside(KindsOf(es), ks) == |es|
    ensures (forall m :: m in es ==> m.kind in ks) ==> SumCounts(Tally(es), ks) == Get(Tally(es), TotalKey) == |es|
  {
    SumCountsOfTally(es, ks);
    Partition(KindsOf(es), ks);
    if forall m :: m in es ==> m.kind in ks {
      KindsCovered(es, ks);
      assert TotalKey !in KindsOf(es);
      TallyCount(es, TotalKey);
    }
  }

  /** Each room's "total" counts the markers carrying that room id (plus its
      markers of type "total"), so it is at least 1 for every room present. */
  lemma RoomTotalCountsEntries(data: seq<Marker>, r: string)
    requires r in RoomStats(data)
    ensures Get(RoomStats(data)[r], TotalKey) == Occ(RoomsOf(data), r) + Occ(KindsOf(RoomEntries(data, r)), TotalKey)
    ensures Get(RoomStats(data)[r], TotalKey) >= 1
  {
    RoomStatsAt(data, r);
    TallyCount(RoomEntries(data, r), TotalKey);
    RoomEntriesEmpty(data, r);
  }

  /** Per room, the counts add up: over distinct marker types, the room's
      per-type counts plus its markers of other types make up the markers with
      that room id; when all of them are of the listed types, the room's
      "total" equals both that sum and that number. */
  lemma RoomCountsAddUp(data: seq<Marker>, r: string, ks: seq<string>)
    requires r in RoomStats(data)
    requires Distinct(ks) && TotalKey !in ks
    ensures SumCounts(RoomStats(data)[r], ks) + Outside(KindsOf(RoomEntries(data, r)), ks) == Occ(RoomsOf(data), r)
    ensures (forall m :: m in data && m.roomId == r ==> m.kind in ks) ==>
      SumCounts(RoomStats(data)[r], ks) == Get(RoomStats(data)[r], TotalKey) == Occ(RoomsOf(data), r)
  {
    RoomStatsAt(data, r);
    RoomEntriesMembers(data, r);
    CountsAddUp(RoomEntries(data, r), ks);
  }

  /** Key `k` of the room counters, added up over the rooms `rs`. */
  function SumOverRooms(data: seq<Marker>, rs: seq<string>, k: string): nat
  {
    if rs == [] then 0 else Get(Tally(RoomEntries(data, rs[0])), k) + SumOverRooms(data, rs[1..], k)
  }

  lemma {:induction false} SumOverRoomsEmpty(rs: seq<string>, k: string)
    ensures SumOverRooms([], rs, k) == 0
  {
    if rs != [] {
      SumOverRoomsEmpty(rs[1..], k);
    }
  }

  lemma {:induction false} SumOverRoomsSnoc(data: seq<Marker>, m: Marker, rs: seq<string>, k: string)
    requires Distinct(rs)
    ensures SumOverRooms(data + [m], rs, k)
         == SumOverRooms(data, rs, k)
            + (if m.roomId in rs then (if k == m.kind then 1 else 0) + (if k == TotalKey then 1 else 0) else 0)
  {
    if rs != [] {
      var r := rs[0];
      assert Distinct(rs[1..]);
      SumOverRoomsSnoc(data, m, rs[1..], k);
      RoomEntriesSnoc(data, m, r);
      if m.roomId == r {
        TallySnoc(RoomEntries(data, r), m);
        assert m.roomId !in rs[1..] by {
          forall i | 0 <= i < |rs[1..]| ensures rs[1..][i] != r {
            assert rs[0] != rs[i + 1];
          }
        }
      }
      assert m.roomId in rs <==> m.roomId == r || m.roomId in rs[1..];
    }
  }

  /** The overall counter is the room counters added up, key by key: in
      particular `total_counts["total"]` is the sum of the rooms' totals. */
  lemma {:induction false} RoomsAddUpToOverall(data: seq<Marker>, rs: seq<string>, k: string)
    requires Distinct(rs)
    requires forall m :: m in data ==> m.roomId in rs
    ensures SumOverRooms(data, rs, k) == Get(Tally(data), k)
  {
    if data == [] {
      SumOverRoomsEmpty(rs, k);
    } else {
      var init, last := data[..|data| - 1], data[|data| - 1];
      assert data == init + [last];
      RoomsAddUpToOverall(init, rs, k);
      SumOverRoomsSnoc(init, last, rs, k);
      TallySnoc(init, last);
    }
  }
}
