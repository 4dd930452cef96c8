/** `components/charts.py`: the numbers behind the dashboard's charts — the
    win/loss/draw tally of the pie, the series and trend switch of the line
    charts, their titles, and the opening bar chart's empty case. Figures,
    colours and the fitted trend line itself are not modelled. */
module Charts {
  import opened Base
  import opened Games
  import opened Grouping
  import Seqs
  import DataProcessor

  const Both: string := "Both"

  // ---------------------------------------------------------------------------
  // `create_win_loss_pie`.

  predicate WonCopy(g: Game) { IsWin(g.resultCopy) }
  predicate LostCopy(g: Game) { IsLoss(g.resultCopy) }
  predicate DrawnCopy(g: Game) { IsDraw(g.resultCopy) }

  /** The pie: slice values in the order wins, losses, draws; their total; and each
      slice's share in percent. */
  datatype Pie = Pie(values: seq<nat>, total: nat, percents: seq<real>, title: string)

  function PieTitle(side: string): string {
    if side == Both then "Game Results Distribution" else "Results as " + side
  }

  /** The tally of `RESULT` by lower-cased value; anything other than win, loss or
      draw, and a missing result, counts toward nothing. */
  function WinLossPie(t: Table, side: string): (r: Outcome<Pie>)
    ensures r.Raised? <==> ResultCopyCol !in t.columns
    ensures r.Raised? ==> r.error == KeyError(ResultCopyCol)
    ensures r.Ok? ==>
      var w, l, d := CountWhere(t.rows, WonCopy), CountWhere(t.rows, LostCopy), CountWhere(t.rows, DrawnCopy);
      && r.value.values == [w, l, d]
      && r.value.total == w + l + d
      && r.value.total <= |t.rows|
      && |r.value.percents| == 3
      && (forall j :: 0 <= j < 3 ==>
            && r.value.values[j] <= r.value.total
            && r.value.percents[j] == Percent(r.value.values[j], r.value.total)
            && 0.0 <= r.value.percents[j] <= 100.0
            && (r.value.percents[j] == 0.0 <==> r.value.values[j] == 0)
            && (r.value.percents[j] == 100.0 <==> r.value.values[j] == r.value.total > 0))
      && r.value.title == PieTitle(side)
  {
    if ResultCopyCol !in t.columns then Raised(KeyError(ResultCopyCol))
    else
      var w, l, d := CountWhere(t.rows, WonCopy), CountWhere(t.rows, LostCopy), CountWhere(t.rows, DrawnCopy);
      ResultTallyBound(t.rows);
      var total := w + l + d;
      Ok(Pie([w, l, d], total, [Percent(w, total), Percent(l, total), Percent(d, total)], PieTitle(side)))
  }

  /** No game is both a win and a loss (or a draw), so the three counts together
      never exceed the number of games. */
  lemma {:induction false} ResultTallyBound(rows: seq<Game>)
    ensures CountWhere(rows, WonCopy) + CountWhere(rows, LostCopy) + CountWhere(rows, DrawnCopy) <= |rows|
  {
    if rows != [] {
      ResultTallyBound(rows[..|rows| - 1]);
      ResultKindsExclusive(rows[|rows| - 1].resultCopy);
    }
  }

  /** The three shares of a non-empty tally add up to 100 percent. */
  lemma PieSharesSum(t: Table, side: string)
    requires WinLossPie(t, side).Ok? && WinLossPie(t, side).value.total > 0
    ensures var p := WinLossPie(t, side).value.percents;
      p[0] + p[1] + p[2] == 100.0
  {
    var w, l, d := CountWhere(t.rows, WonCopy), CountWhere(t.rows, LostCopy), CountWhere(t.rows, DrawnCopy);
    SharesSum(w, l, d);
  }

  lemma SharesSum(w: nat, l: nat, d: nat)
    requires w + l + d > 0
    ensures Percent(w, w + l + d) + Percent(l, w + l + d) + Percent(d, w + l + d) == 100.0
  {
    var n := (w + l + d) as real;
    var a, b, c := w as real, l as real, d as real;
    assert a / n + b / n + c / n == (a + b + c) / n;
    assert (a + b + c) / n == 1.0;
  }

  // ---------------------------------------------------------------------------
  // `create_rating_progression`, `create_metric_over_time`.

  /** The numeric columns plotted over time. */
  datatype Metric = NewRating | Acl | Accuracy | GameRating | PerformanceRating

  function MetricColumn(m: Metric): string {
    match m
    case NewRating => NewRatingCol
    case Acl => AclCol
    case Accuracy => AccuracyCol
    case GameRating => GameRatingCol
    case PerformanceRating => PerformanceRatingCol
  }

  function MetricValue(m: Metric, g: Game): Option<real> {
    match m
    case NewRating => g.newRating
    case Acl => g.acl
    case Accuracy => g.accuracy
    case GameRating => g.gameRating
    case PerformanceRating => g.performanceRating
  }

  function HasValue(m: Metric): Game -> bool { g => MetricValue(m, g).Some? }

  /** The plotted point of a game with a value of the metric. */
  function PointOf(m: Metric): Game -> Option<(Option<int>, real)> {
    g => match MetricValue(m, g)
      case Some(v) => Some((g.date, v))
      case None => None
  }

  /** A line chart: its (date, value) points, whether a trend line is added, its title. */
  datatype LineChart = LineChart(points: seq<(Option<int>, real)>, hasTrend: bool, title: string)

  function Points(rows: seq<Game>, m: Metric): (r: seq<(Option<int>, real)>)
    ensures |r| == |Seqs.Indices(rows, HasValue(m))|
    ensures forall j :: 0 <= j < |r| ==>
      var g := rows[Seqs.Indices(rows, HasValue(m))[j]];
      MetricValue(m, g).Some? && r[j] == (g.date, MetricValue(m, g).value)
  {
    Seqs.Collect(rows, HasValue(m), PointOf(m))
  }

  /** The rows with a value of the metric, plotted in table order; the trend line
      only when there are two points or more. */
  function MetricChart(t: Table, m: Metric, title: string): (r: Outcome<LineChart>)
    ensures MetricColumn(m) !in t.columns ==> r == Raised(KeyError(MetricColumn(m)))
    ensures MetricColumn(m) in t.columns && DateCol !in t.columns ==> r == Raised(KeyError(DateCol))
    ensures r.Ok? <==> MetricColumn(m) in t.columns && DateCol in t.columns
    ensures r.Ok? ==>
      && |r.value.points| == CountWhere(t.rows, HasValue(m))
      && (r.value.hasTrend <==> CountWhere(t.rows, HasValue(m)) > 1)
      && r.value.title == title
  {
    if MetricColumn(m) !in t.columns then Raised(KeyError(MetricColumn(m)))
    else if DateCol !in t.columns then Raised(KeyError(DateCol))
    else
      var pts := Points(t.rows, m);
      IndicesCount(t.rows, HasValue(m));
      Ok(LineChart(pts, |pts| > 1, title))
  }

  /** More games never take the trend line away. */
  lemma TrendMonotone(rows: seq<Game>, more: seq<Game>, m: Metric)
    ensures CountWhere(rows, HasValue(m)) > 1 ==> CountWhere(rows + more, HasValue(m)) > 1
  {
    CountWhereAppend(rows, more, HasValue(m));
  }

  lemma {:induction false} CountWhereAppend<T>(xs: seq<T>, ys: seq<T>, p: T -> bool)
    ensures CountWhere(xs + ys, p) == CountWhere(xs, p) + CountWhere(ys, p)
  {
    if ys == [] {
      assert xs + ys == xs;
    } else {
      CountWhereAppend(xs, ys[..|ys| - 1], p);
      assert (xs + ys)[..|xs + ys| - 1] == xs + ys[..|ys| - 1];
    }
  }

  function RatingTitle(side: string): string {
    if side == Both then "Rating Progression Over Time" else "Rating Progression (" + side + " Games)"
  }

  function MetricTitle(title: string, side: string): string {
    if side == Both then title else title + " (" + side + ")"
  }

  /** `create_rating_progression(df, side_filter)`. */
  function RatingProgression(t: Table, side: string): (r: Outcome<LineChart>)
    ensures r.Ok? <==> NewRatingCol in t.columns && DateCol in t.columns
    ensures r.Ok? ==>
      && r.value.title == RatingTitle(side)
      && (r.value.hasTrend <==> CountWhere(t.rows, HasValue(NewRating)) > 1)
  {
    MetricChart(t, NewRating, RatingTitle(side))
  }

  /** `create_metric_over_time(df, metric_col, title, _, side_filter)`. */
  function MetricOverTime(t: Table, m: Metric, title: string, side: string): (r: Outcome<LineChart>)
    ensures r.Ok? <==> MetricColumn(m) in t.columns && DateCol in t.columns
    ensures r.Ok? ==>
      && r.value.title == MetricTitle(title, side)
      && (r.value.hasTrend <==> CountWhere(t.rows, HasValue(m)) > 1)
  {
    MetricChart(t, m, MetricTitle(title, side))
  }

  /** The side filter a rating-chart title was made for. */
  function RatingTitleSide(title: string): string {
    if title == RatingTitle(Both) then Both
    else if |title| >= 27 then title[20..|title| - 7]
    else title
  }

  /** The title tells which side filter is active: reading it back gives the filter. */
  lemma RatingTitleRoundTrip(side: string)
    ensures RatingTitleSide(RatingTitle(side)) == side
  {
    if side != Both {
      var t := RatingTitle(side);
      assert t[19] == '(' && RatingTitle(Both)[19] == 'O';
      assert t[20..|t| - 7] == side;
    }
  }

  /** The side filter a pie title was made for. */
  function PieTitleSide(title: string): string {
    if title == PieTitle(Both) then Both
    else if |title| >= 11 then title[11..]
    else title
  }

  /** The pie title tells which side filter is active. */
  lemma PieTitleRoundTrip(side: string)
    ensures PieTitleSide(PieTitle(side)) == side
  {
    if side != Both {
      var t := PieTitle(side);
      assert t[0] == 'R' && PieTitle(Both)[0] == 'G';
      assert t[11..] == side;
    }
  }

  /** The side filter a metric-chart title was made for, given the base title. */
  function MetricTitleSide(base: string, title: string): string {
    if title == base then Both
    else if |title| >= |base| + 3 then title[|base| + 2..|title| - 1]
    else title
  }

  /** A metric title keeps the base title as a prefix and tells which side filter
      is active. */
  lemma MetricTitleRoundTrip(base: string, side: string)
    ensures MetricTitle(base, side)[..|base|] == base
    ensures MetricTitleSide(base, MetricTitle(base, side)) == side
  {
    if side != Both {
      var t := MetricTitle(base, side);
      assert |t| == |base| + |side| + 3;
      assert t[|base| + 2..|t| - 1] == side;
    }
  }

  // ---------------------------------------------------------------------------
  // `create_opening_bar`.

  datatype BarFigure = EmptyFigure | Bars(x: seq<string>, y: seq<nat>, title: string)

  function OpeningBar(stats: seq<(string, nat)>): (r: BarFigure)
    ensures r.EmptyFigure? <==> stats == []
    ensures r.Bars? ==>
      && |r.x| == |r.y| == |stats|
      && forall j :: 0 <= j < |stats| ==> r.x[j] == stats[j].0 && r.y[j] == stats[j].1
  {
    if stats == [] then EmptyFigure
    else Bars(seq(|stats|, j requires 0 <= j < |stats| => stats[j].0),
              seq(|stats|, j requires 0 <= j < |stats| => stats[j].1),
              "Most Played Openings")
  }

  /** The opening bar chart of `get_opening_stats` is empty exactly when no game
      names an opening other than "Unknown Opening". */
  lemma OpeningBarEmpty(t: Option<Table>)
    requires t.Some? && PgnCol in t.value.columns
    ensures OpeningBar(DataProcessor.GetOpeningStats(t)).EmptyFigure? <==>
      CountWhere(t.value.rows, DataProcessor.NamedOpening) == 0
  {
    var s := DataProcessor.GetOpeningStats(t);
    if s != [] {
      assert Total(s) == s[0].1 + Total(s[1..]);
    }
  }
}
