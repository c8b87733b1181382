/** The data rules of the ranking chart (components/RankingChart.js):
    `filterDataByTimeRange`, the x-axis labels and the latest point shown
    under the chart. The clock is the parameter `now`, in milliseconds. */
module RankingChart {
  import opened Js
  import opened Api

  const HourMs := 60 * 60 * 1000

  /** The length of the window each range button selects, in milliseconds;
      None for any other range name. */
  function WindowMs(range: string): (r: Option<int>)
    ensures r.Some? <==> range in {"6h", "24h", "7d", "30d"}
    ensures r.Some? ==> r.value > 0
    ensures range == "6h" ==> r == Some(6 * HourMs)
    ensures range == "24h" ==> r == Some(24 * HourMs) && r == Some(DayMs)
    ensures range == "7d" ==> r == Some(7 * DayMs)
    ensures range == "30d" ==> r == Some(30 * DayMs)
  {
    if range == "6h" then Some(6 * 60 * 60 * 1000)
    else if range == "24h" then Some(24 * 60 * 60 * 1000)
    else if range == "7d" then Some(7 * 24 * 60 * 60 * 1000)
    else if range == "30d" then Some(30 * 24 * 60 * 60 * 1000)
    else None
  }

  /** `new Date(item.scraped_at) >= cutoffTime`: an invalid date compares false. */
  function InWindow(p: Point, cutoff: int): (b: bool)
    ensures p.time.None? ==> !b
    ensures p.time.Some? ==> (b <==> cutoff <= p.time.value)
  {
    p.time.Some? && p.time.value >= cutoff
  }

  /** `data.filter(item => new Date(item.scraped_at) >= cutoffTime)`. */
  function KeepSince(data: seq<Point>, cutoff: int): (r: seq<Point>)
    ensures |r| <= |data|
    ensures forall i :: 0 <= i < |r| ==> InWindow(r[i], cutoff)
  {
    if data == [] then []
    else if InWindow(data[0], cutoff) then [data[0]] + KeepSince(data[1..], cutoff)
    else KeepSince(data[1..], cutoff)
  }

  /** a can be obtained from b by deleting elements. */
  predicate IsSubsequence(a: seq<Point>, b: seq<Point>)
    decreases |b|
  {
    if b == [] then a == []
    else (a != [] && a[0] == b[0] && IsSubsequence(a[1..], b[1..])) || IsSubsequence(a, b[1..])
  }

  /** The points the chart plots for the selected range. */
  function FilterByTimeRange(data: Option<seq<Point>>, range: string, now: int): (r: seq<Point>)
    ensures data.None? ==> r == []
  {
    if data.None? || data.value == [] then []
    else match WindowMs(range)
      case None => data.value
      case Some(ms) => KeepSince(data.value, now - ms)
  }

  /** The filter keeps points in their original order. */
  lemma {:induction false} KeepSinceIsSubsequence(data: seq<Point>, cutoff: int)
    ensures IsSubsequence(KeepSince(data, cutoff), data)
  {
    if data != [] {
      KeepSinceIsSubsequence(data[1..], cutoff);
    }
  }

  /** The filter keeps every point inside the window, as often as it occurs,
      and no other point. */
  lemma {:induction false} KeepSinceCounts(data: seq<Point>, cutoff: int, x: Point)
    ensures multiset(KeepSince(data, cutoff))[x] == if InWindow(x, cutoff) then multiset(data)[x] else 0
  {
    if data != [] {
      KeepSinceCounts(data[1..], cutoff, x);
      assert data == [data[0]] + data[1..];
      var r := KeepSince(data, cutoff);
      if InWindow(data[0], cutoff) {
        assert multiset(r) == multiset([data[0]]) + multiset(KeepSince(data[1..], cutoff));
      }
    }
  }

  /** Filtering a concatenation filters each part. */
  lemma {:induction false} KeepSinceAppend(a: seq<Point>, b: seq<Point>, cutoff: int)
    ensures KeepSince(a + b, cutoff) == KeepSince(a, cutoff) + KeepSince(b, cutoff)
  {
    if a != [] {
      assert (a + b)[1..] == a[1..] + b;
      KeepSinceAppend(a[1..], b, cutoff);
    } else {
      assert a + b == b;
    }
  }

  /** Filtering twice with the same cutoff filters once. */
  lemma {:induction false} KeepSinceIdempotent(data: seq<Point>, cutoff: int)
    ensures KeepSince(KeepSince(data, cutoff), cutoff) == KeepSince(data, cutoff)
  {
    if data != [] {
      KeepSinceIdempotent(data[1..], cutoff);
      var rest := KeepSince(data[1..], cutoff);
      if InWindow(data[0], cutoff) {
        assert ([data[0]] + rest)[1..] == rest;
      }
    }
  }

  /** A windowed view is exactly the in-window points of the data, in order,
      and holds no point with an invalid date. */
  lemma FilterWindowed(data: seq<Point>, range: string, now: int)
    requires range in {"6h", "24h", "7d", "30d"}
    ensures var r := FilterByTimeRange(Some(data), range, now);
            var cutoff := now - WindowMs(range).value;
            && IsSubsequence(r, data)
            && (forall x :: multiset(r)[x] == if InWindow(x, cutoff) then multiset(data)[x] else 0)
            && (forall i :: 0 <= i < |r| ==> r[i].time.Some? && r[i].time.value >= cutoff)
  {
    var cutoff := now - WindowMs(range).value;
    KeepSinceIsSubsequence(data, cutoff);
    forall x ensures multiset(FilterByTimeRange(Some(data), range, now))[x]
                   == if InWindow(x, cutoff) then multiset(data)[x] else 0 {
      KeepSinceCounts(data, cutoff, x);
    }
  }

  /** Missing or empty data gives no points for every range; a range name
      without a window gives the data unchanged. */
  lemma FilterUnwindowed(data: Option<seq<Point>>, range: string, now: int)
    ensures (data.None? || data.value == []) ==> FilterByTimeRange(data, range, now) == []
    ensures data.Some? && range !in {"6h", "24h", "7d", "30d"} ==> FilterByTimeRange(data, range, now) == data.value
  {
  }

  /** Applying the filter a second time with the same range and clock
      changes nothing. */
  lemma FilterIdempotent(data: Option<seq<Point>>, range: string, now: int)
    ensures var once := FilterByTimeRange(data, range, now);
            FilterByTimeRange(Some(once), range, now) == once
  {
    if data.Some? && data.value != [] && WindowMs(range).Some? {
      KeepSinceIdempotent(data.value, now - WindowMs(range).value);
    }
  }

  /** The x-axis labels: each point's date, or the current time when the
      date is invalid. */
  function Labels(points: seq<Point>, now: int): (r: seq<int>)
    ensures |r| == |points|
    ensures forall i :: 0 <= i < |r| ==> r[i] == if points[i].time.Some? then points[i].time.value else now
  {
    if points == [] then [] else [points[0].time.GetOr(now)] + Labels(points[1..], now)
  }

  /** In a windowed view no label falls back to the current time: each label
      is the point's own date, inside the window. */
  lemma WindowedLabels(data: seq<Point>, range: string, now: int)
    requires range in {"6h", "24h", "7d", "30d"}
    ensures var r := FilterByTimeRange(Some(data), range, now);
            forall i :: 0 <= i < |r| ==>
              Labels(r, now)[i] == r[i].time.value && r[i].time.value >= now - WindowMs(range).value
  {
  }

  /** The point whose ranking is shown as "Latest ranking": the last one
      plotted; None when nothing is plotted. */
  function Latest(points: seq<Point>): (r: Option<Point>)
    ensures r.None? <==> points == []
    ensures r.Some? ==> r.value == points[|points| - 1]
  {
    if points == [] then None else Some(points[|points| - 1])
  }

  /** The latest point of a window is the last point of the data that lies
      in the window, and there is none exactly when no point does. */
  lemma {:induction false} LatestInWindow(data: seq<Point>, cutoff: int)
    ensures Latest(KeepSince(data, cutoff)).None? <==> forall i :: 0 <= i < |data| ==> !InWindow(data[i], cutoff)
    ensures Latest(KeepSince(data, cutoff)).Some? ==>
              exists i :: 0 <= i < |data| && data[i] == Latest(KeepSince(data, cutoff)).value
                          && InWindow(data[i], cutoff)
                          && forall j :: i < j < |data| ==> !InWindow(data[j], cutoff)
    decreases |data|
  {
    if data != [] {
      var n := |data| - 1;
      var init := data[..n];
      assert data == init + [data[n]];
      KeepSinceAppend(init, [data[n]], cutoff);
      assert KeepSince([data[n]], cutoff) == if InWindow(data[n], cutoff) then [data[n]] else [];
      if InWindow(data[n], cutoff) {
        assert Latest(KeepSince(data, cutoff)) == Some(data[n]);
      } else {
        assert KeepSince(data, cutoff) == KeepSince(init, cutoff);
        LatestInWindow(init, cutoff);
        if Latest(KeepSince(init, cutoff)).Some? {
          var i :| 0 <= i < |init| && init[i] == Latest(KeepSince(init, cutoff)).value
                   && InWindow(init[i], cutoff)
                   && forall j :: i < j < |init| ==> !InWindow(init[j], cutoff);
          assert data[i] == init[i];
          forall j | i < j < |data| ensures !InWindow(data[j], cutoff) {
            if j < n {
              assert data[j] == init[j];
            }
          }
        } else {
          forall i | 0 <= i < |data| ensures !InWindow(data[i], cutoff) {
            if i < n {
              assert data[i] == init[i];
            }
          }
        }
      }
    }
  }
}
