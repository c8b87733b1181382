/** The statistics block of the dashboard cards (components/StatsCards.js):
    the current and previous points, the best and worst ranking, the signed
    change and how that change is coloured, drawn and worded. */
module StatsCards {
  import opened Js
  import opened Api

  /** `data.map(item => item.ranking).filter(r => r !== null)`. */
  function Rankings(data: seq<Point>): (r: seq<int>)
    ensures |r| <= |data|
    ensures forall x :: x in r <==> exists i :: 0 <= i < |data| && data[i].ranking == Some(x)
  {
    if data == [] then []
    else
      var rest := Rankings(data[1..]);
      assert forall i :: 1 <= i < |data| ==> data[i] == data[1..][i - 1];
      if data[0].ranking.Some? then [data[0].ranking.value] + rest else rest
  }

  /** `Math.min(...s)` on a non-empty list. */
  function MinOf(s: seq<int>): (r: int)
    requires s != []
    ensures r in s && forall x :: x in s ==> r <= x
  {
    if |s| == 1 then s[0]
    else
      var m := MinOf(s[1..]);
      assert forall x :: x in s ==> x == s[0] || x in s[1..];
      if s[0] <= m then s[0] else m
  }

  /** `Math.max(...s)` on a non-empty list. */
  function MaxOf(s: seq<int>): (r: int)
    requires s != []
    ensures r in s && forall x :: x in s ==> x <= r
  {
    if |s| == 1 then s[0]
    else
      var m := MaxOf(s[1..]);
      assert forall x :: x in s ==> x == s[0] || x in s[1..];
      if s[0] >= m then s[0] else m
  }

  datatype Stats = Stats(
    current: Point,
    previous: Option<Point>,
    best: Option<int>,
    worst: Option<int>,
    change: Option<int>)

  /** A ranking is truthy when it is present and not 0. */
  predicate TruthyRanking(r: Option<int>) {
    r.Some? && r.value != 0
  }

  /** The statistics of non-empty data. */
  function StatsOf(data: seq<Point>): (r: Stats)
    requires data != []
    ensures r.current == data[|data| - 1]
    ensures r.previous.Some? <==> |data| > 1
    ensures r.previous.Some? ==> r.previous.value == data[|data| - 2]
    ensures r.best.None? <==> forall i :: 0 <= i < |data| ==> data[i].ranking.None?
    ensures r.worst.None? <==> r.best.None?
    ensures r.best.Some? ==>
              (exists i :: 0 <= i < |data| && data[i].ranking == r.best)
              && forall i :: 0 <= i < |data| && data[i].ranking.Some? ==> r.best.value <= data[i].ranking.value
    ensures r.worst.Some? ==>
              (exists i :: 0 <= i < |data| && data[i].ranking == r.worst)
              && forall i :: 0 <= i < |data| && data[i].ranking.Some? ==> data[i].ranking.value <= r.worst.value
    ensures r.change.Some? <==>
              |data| > 1 && TruthyRanking(data[|data| - 1].ranking) && TruthyRanking(data[|data| - 2].ranking)
    ensures r.change.Some? ==> r.change.value == data[|data| - 1].ranking.value - data[|data| - 2].ranking.value
  {
    var current := data[|data| - 1];
    var previous := if |data| > 1 then Some(data[|data| - 2]) else None;
    var rankings := Rankings(data);
    assert forall i :: 0 <= i < |data| && data[i].ranking.Some? ==> data[i].ranking.value in rankings;
    Stats(
      current,
      previous,
      if rankings != [] then Some(MinOf(rankings)) else None,
      if rankings != [] then Some(MaxOf(rankings)) else None,
      if previous.Some? && TruthyRanking(current.ranking) && TruthyRanking(previous.value.ranking)
      then Some(current.ranking.value - previous.value.ranking.value)
      else None)
  }

  /** The best ranking is never worse than the worst. */
  lemma BestNotAboveWorst(data: seq<Point>)
    requires data != []
    ensures StatsOf(data).best.Some? ==> StatsOf(data).best.value <= StatsOf(data).worst.value
  {
    var s := StatsOf(data);
    if s.best.Some? {
      var i :| 0 <= i < |data| && data[i].ranking == s.best;
    }
  }

  /** What the component shows. */
  datatype View = Loading | NoData | Cards(stats: Stats)

  function Render(data: Option<seq<Point>>, loading: bool): (r: View)
    ensures loading ==> r == Loading
    ensures !loading && (data.None? || data.value == []) ==> r == NoData
    ensures r.Cards? ==> data.Some? && data.value != [] && r.stats == StatsOf(data.value)
    ensures !loading && data.Some? && data.value != [] ==> r == Cards(StatsOf(data.value))
  {
    if loading then Loading
    else if data.None? || data.value == [] then NoData
    else Cards(StatsOf(data.value))
  }

  /** The class of the change line. A negative change is a better rank. */
  function ChangeColor(change: Option<int>): (c: string)
    ensures c == "text-green-600" <==> change.Some? && change.value < 0
    ensures c == "text-red-600" <==> change.Some? && change.value > 0
    ensures c == "text-gray-600" <==> change.None? || change.value == 0
  {
    if change.None? || change.value == 0 then "text-gray-600"
    else if change.value < 0 then "text-green-600"
    else "text-red-600"
  }

  /** The arrow in front of the change. */
  function ChangeIcon(change: Option<int>): (a: string)
    ensures a == "\U{2197}\U{FE0F}" <==> change.Some? && change.value < 0
    ensures a == "\U{2198}\U{FE0F}" <==> change.Some? && change.value > 0
    ensures a == "\U{2192}" <==> change.None? || change.value == 0
  {
    if change.None? || change.value == 0 then "\U{2192}"
    else if change.value < 0 then "\U{2197}\U{FE0F}"
    else "\U{2198}\U{FE0F}"
  }

  /** The word after the size of the change. */
  function ChangeSuffix(change: int): (w: string)
    ensures w == " up" <==> change < 0
    ensures w == " down" <==> change > 0
    ensures w == [] <==> change == 0
  {
    if change < 0 then " up" else if change > 0 then " down" else ""
  }

  /** Colour, arrow and word tell the same story: a climb is green, points
      up-right and reads " up"; a fall is red, points down-right and reads
      " down"; no change (or none known) is grey with a flat arrow. */
  lemma {:induction false} ChangePresentation(change: Option<int>)
    ensures ChangeColor(change) == "text-green-600" <==> change.Some? && change.value < 0
    ensures ChangeColor(change) == "text-red-600" <==> change.Some? && change.value > 0
    ensures ChangeColor(change) == "text-gray-600" <==> change.None? || change.value == 0
    ensures ChangeIcon(change) == "\U{2197}\U{FE0F}" <==> ChangeColor(change) == "text-green-600"
    ensures ChangeIcon(change) == "\U{2198}\U{FE0F}" <==> ChangeColor(change) == "text-red-600"
    ensures ChangeIcon(change) == "\U{2192}" <==> ChangeColor(change) == "text-gray-600"
    ensures change.Some? ==>
              (ChangeSuffix(change.value) == " up" <==> ChangeColor(change) == "text-green-600")
              && (ChangeSuffix(change.value) == " down" <==> ChangeColor(change) == "text-red-600")
              && (ChangeSuffix(change.value) == "" <==> ChangeColor(change) == "text-gray-600")
  {
  }

  /** A shown change never comes from a missing or zero ranking, so an
      improvement from rank p to rank c < p is green. */
  lemma ImprovementIsGreen(data: seq<Point>)
    requires |data| > 1
    requires TruthyRanking(data[|data| - 1].ranking) && TruthyRanking(data[|data| - 2].ranking)
    requires data[|data| - 1].ranking.value < data[|data| - 2].ranking.value
    ensures ChangeColor(StatsOf(data).change) == "text-green-600"
  {
  }
}
