/** `utils/ml_analysis.py`: the rule-based list of `generate_performance_insights`.
    Insights are tagged values carrying the numbers their messages print; the
    clustering part is not modelled. */
module Insights {
  import opened Base
  import opened Games
  import opened Grouping
  import Charts

  const MinGames: nat := 5
  const MinGamesForTrend: nat := 10

  datatype Insight =
    | NeedMoreGames
    | RatingImproved(points: real)
    | RatingDecreased(points: real)
    | RatingStable
    | ExcellentAccuracy(accuracy: real)
    | GoodAccuracy(accuracy: real)
    | AccuracyTraining(accuracy: real)
    | StrongPositional(acl: real)
    | DecentPositional(acl: real)
    | PositionalTraining(acl: real)
    | BetterWithWhite(whiteRate: real, blackRate: real)
    | BetterWithBlack(blackRate: real, whiteRate: real)
    | OverallWinRate(rate: real, wins: nat, games: nat)
    | OpeningRepertoire
    | EndgameTechnique
    | TimeManagement
    | ReviewHighAcl
    | TacticalPuzzles

  /** The five general tips added when fewer than three insights were found. */
  const GenericInsights: seq<Insight> :=
    [OpeningRepertoire, EndgameTechnique, TimeManagement, ReviewHighAcl, TacticalPuzzles]

  // ---------------------------------------------------------------------------
  // Column means, skipping missing values as `Series.mean()` does.

  function ValueCount(rows: seq<Game>, m: Charts.Metric): nat {
    CountWhere(rows, Charts.HasValue(m))
  }

  /** Sum of the present values of metric `m`. */
  function ValueSum(rows: seq<Game>, m: Charts.Metric): real {
    if rows == [] then 0.0
    else
      var last := Charts.MetricValue(m, rows[|rows| - 1]);
      ValueSum(rows[..|rows| - 1], m) + (if last.Some? then last.value else 0.0)
  }

  function Mean(rows: seq<Game>, m: Charts.Metric): real
    requires ValueCount(rows, m) > 0
  {
    ValueSum(rows, m) / ValueCount(rows, m) as real
  }

  /** `c` added up `n` times. */
  function Scaled(c: real, n: nat): real {
    if n == 0 then 0.0 else Scaled(c, n - 1) + c
  }

  lemma {:induction false} ScaledIsProduct(c: real, n: nat)
    ensures Scaled(c, n) == c * n as real
  {
    if n > 0 {
      ScaledIsProduct(c, n - 1);
      assert c * (n - 1) as real + c == c * n as real;
    }
  }

  /** When every present value exceeds `c`, so does their sum, count times over. */
  lemma {:induction false} SumAbove(rows: seq<Game>, m: Charts.Metric, c: real)
    requires forall i :: 0 <= i < |rows| && Charts.MetricValue(m, rows[i]).Some? ==> Charts.MetricValue(m, rows[i]).value > c
    ensures ValueSum(rows, m) >= Scaled(c, ValueCount(rows, m))
    ensures ValueCount(rows, m) > 0 ==> ValueSum(rows, m) > Scaled(c, ValueCount(rows, m))
  {
    if rows != [] {
      var init := rows[..|rows| - 1];
      var v := Charts.MetricValue(m, rows[|rows| - 1]);
      assert forall i :: 0 <= i < |init| ==> init[i] == rows[i];
      SumAbove(init, m, c);
      if v.Some? {
        assert ValueSum(rows, m) == ValueSum(init, m) + v.value;
        assert ValueCount(rows, m) == ValueCount(init, m) + 1;
      } else {
        assert ValueSum(rows, m) == ValueSum(init, m);
        assert ValueCount(rows, m) == ValueCount(init, m);
      }
    }
  }

  /** When every present value is below `c`, so is their sum, count times over. */
  lemma {:induction false} SumBelow(rows: seq<Game>, m: Charts.Metric, c: real)
    requires forall i :: 0 <= i < |rows| && Charts.MetricValue(m, rows[i]).Some? ==> Charts.MetricValue(m, rows[i]).value < c
    ensures ValueSum(rows, m) <= Scaled(c, ValueCount(rows, m))
    ensures ValueCount(rows, m) > 0 ==> ValueSum(rows, m) < Scaled(c, ValueCount(rows, m))
  {
    if rows != [] {
      var init := rows[..|rows| - 1];
      var v := Charts.MetricValue(m, rows[|rows| - 1]);
      assert forall i :: 0 <= i < |init| ==> init[i] == rows[i];
      SumBelow(init, m, c);
      if v.Some? {
        assert ValueSum(rows, m) == ValueSum(init, m) + v.value;
        assert ValueCount(rows, m) == ValueCount(init, m) + 1;
      } else {
        assert ValueSum(rows, m) == ValueSum(init, m);
        assert ValueCount(rows, m) == ValueCount(init, m);
      }
    }
  }

  /** Dividing a sum by a positive count keeps its side of `c`. */
  lemma DivideByCount(sum: real, n: real, c: real)
    requires n > 0.0
    ensures sum > c * n ==> sum / n > c
    ensures sum < c * n ==> sum / n < c
  {
    var q := sum / n;
    assert q * n == sum;
    if q <= c { assert q * n <= c * n; }
    if q >= c { assert q * n >= c * n; }
  }

  /** The mean of values that all exceed `c` exceeds `c`. */
  lemma MeanAbove(rows: seq<Game>, m: Charts.Metric, c: real)
    requires ValueCount(rows, m) > 0
    requires forall i :: 0 <= i < |rows| && Charts.MetricValue(m, rows[i]).Some? ==> Charts.MetricValue(m, rows[i]).value > c
    ensures Mean(rows, m) > c
  {
    SumAbove(rows, m, c);
    ScaledIsProduct(c, ValueCount(rows, m));
    DivideByCount(ValueSum(rows, m), ValueCount(rows, m) as real, c);
  }

  /** The mean of values that are all below `c` is below `c`. */
  lemma MeanBelow(rows: seq<Game>, m: Charts.Metric, c: real)
    requires ValueCount(rows, m) > 0
    requires forall i :: 0 <= i < |rows| && Charts.MetricValue(m, rows[i]).Some? ==> Charts.MetricValue(m, rows[i]).value < c
    ensures Mean(rows, m) < c
  {
    SumBelow(rows, m, c);
    ScaledIsProduct(c, ValueCount(rows, m));
    DivideByCount(ValueSum(rows, m), ValueCount(rows, m) as real, c);
  }

  // ---------------------------------------------------------------------------
  // The four conditional insights.

  /** Rating trend between the first and the last game, for ten games or more.
      A missing rating at either end makes the difference NaN, which compares
      neither above nor below zero: the trend then reads as stable. */
  function RatingInsight(t: Table): (r: Option<Insight>)
    ensures r.Some? <==>
      NewRatingCol in t.columns && ValueCount(t.rows, Charts.NewRating) > 0 && |t.rows| >= MinGamesForTrend
    ensures r.Some? ==>
      var first, last := t.rows[0].newRating, t.rows[|t.rows| - 1].newRating;
      && (r.value.RatingImproved? <==> first.Some? && last.Some? && last.value > first.value)
      && (r.value.RatingDecreased? <==> first.Some? && last.Some? && last.value < first.value)
      && (r.value.RatingStable? <==> first.None? || last.None? || last.value == first.value)
      && (r.value.RatingImproved? ==> r.value.points == last.value - first.value)
      && (r.value.RatingDecreased? ==> r.value.points == first.value - last.value)
  {
    if NewRatingCol !in t.columns || ValueCount(t.rows, Charts.NewRating) == 0 || |t.rows| < MinGamesForTrend then None
    else
      match (t.rows[0].newRating, t.rows[|t.rows| - 1].newRating)
      case (Some(a), Some(b)) =>
        if b - a > 0.0 then Some(RatingImproved(b - a))
        else if b - a < 0.0 then Some(RatingDecreased(a - b))
        else Some(RatingStable)
      case _ => Some(RatingStable)
  }

  /** Accuracy buckets on the mean: above 85, above 75, otherwise. */
  function AccuracyInsight(t: Table): (r: Option<Insight>)
    ensures r.Some? <==> AccuracyCol in t.columns && ValueCount(t.rows, Charts.Accuracy) > 0
    ensures r.Some? ==>
      var avg := Mean(t.rows, Charts.Accuracy);
      && (r.value.ExcellentAccuracy? <==> avg > 85.0)
      && (r.value.GoodAccuracy? <==> 75.0 < avg <= 85.0)
      && (r.value.AccuracyTraining? <==> avg <= 75.0)
      && r.value.accuracy == avg
  {
    if AccuracyCol !in t.columns || ValueCount(t.rows, Charts.Accuracy) == 0 then None
    else
      var avg := Mean(t.rows, Charts.Accuracy);
      if avg > 85.0 then Some(ExcellentAccuracy(avg))
      else if avg > 75.0 then Some(GoodAccuracy(avg))
      else Some(AccuracyTraining(avg))
  }

  /** ACL buckets on the mean: below 50, below 75, otherwise. */
  function AclInsight(t: Table): (r: Option<Insight>)
    ensures r.Some? <==> AclCol in t.columns && ValueCount(t.rows, Charts.Acl) > 0
    ensures r.Some? ==>
      var avg := Mean(t.rows, Charts.Acl);
      && (r.value.StrongPositional? <==> avg < 50.0)
      && (r.value.DecentPositional? <==> 50.0 <= avg < 75.0)
      && (r.value.PositionalTraining? <==> avg >= 75.0)
      && r.value.acl == avg
  {
    if AclCol !in t.columns || ValueCount(t.rows, Charts.Acl) == 0 then None
    else
      var avg := Mean(t.rows, Charts.Acl);
      if avg < 50.0 then Some(StrongPositional(avg))
      else if avg < 75.0 then Some(DecentPositional(avg))
      else Some(PositionalTraining(avg))
  }

  /** A table whose every recorded accuracy is above 85 gets the "excellent" insight. */
  lemma HighAccuracyIsExcellent(t: Table)
    requires AccuracyCol in t.columns && ValueCount(t.rows, Charts.Accuracy) > 0
    requires forall i :: 0 <= i < |t.rows| && t.rows[i].accuracy.Some? ==> t.rows[i].accuracy.value > 85.0
    ensures AccuracyInsight(t).Some? && AccuracyInsight(t).value.ExcellentAccuracy?
  {
    MeanAbove(t.rows, Charts.Accuracy, 85.0);
  }

  /** A table whose every recorded ACL is below 50 gets the "strong positional play" insight. */
  lemma LowAclIsStrong(t: Table)
    requires AclCol in t.columns && ValueCount(t.rows, Charts.Acl) > 0
    requires forall i :: 0 <= i < |t.rows| && t.rows[i].acl.Some? ==> t.rows[i].acl.value < 50.0
    ensures AclInsight(t).Some? && AclInsight(t).value.StrongPositional?
  {
    MeanBelow(t.rows, Charts.Acl, 50.0);
  }

  predicate WhiteGame(g: Game) { IsWhite(g.side) }
  predicate BlackGame(g: Game) { IsBlack(g.side) }
  predicate WhiteWin(g: Game) { IsWhite(g.side) && IsWin(g.resultCopy) }
  predicate BlackWin(g: Game) { IsBlack(g.side) && IsWin(g.resultCopy) }

  /** Wins with a colour never outnumber the games with it. */
  lemma {:induction false} WinsWithin(rows: seq<Game>)
    ensures CountWhere(rows, WhiteWin) <= CountWhere(rows, WhiteGame)
    ensures CountWhere(rows, BlackWin) <= CountWhere(rows, BlackGame)
  {
    if rows != [] {
      WinsWithin(rows[..|rows| - 1]);
    }
  }

  function Abs(x: real): real { if x < 0.0 then -x else x }

  /** Percentage of the games played with White that were won. */
  function WhiteRate(rows: seq<Game>): real {
    WinsWithin(rows);
    Percent(CountWhere(rows, WhiteWin), CountWhere(rows, WhiteGame))
  }

  /** Percentage of the games played with Black that were won. */
  function BlackRate(rows: seq<Game>): real {
    WinsWithin(rows);
    Percent(CountWhere(rows, BlackWin), CountWhere(rows, BlackGame))
  }

  /** White against Black, when both were played and the win rates differ by more
      than 10 points; the insight names the better side with both rates. */
  function SideInsight(t: Table): (r: Option<Insight>)
    ensures r.Some? <==>
      && SideCol in t.columns
      && CountWhere(t.rows, WhiteGame) > 0 && CountWhere(t.rows, BlackGame) > 0
      && Abs(WhiteRate(t.rows) - BlackRate(t.rows)) > 10.0
    ensures r.Some? ==>
      && (r.value.BetterWithWhite? || r.value.BetterWithBlack?)
      && r.value.whiteRate == WhiteRate(t.rows) && r.value.blackRate == BlackRate(t.rows)
      && (r.value.BetterWithWhite? <==> r.value.whiteRate > r.value.blackRate)
  {
    var w, b := CountWhere(t.rows, WhiteGame), CountWhere(t.rows, BlackGame);
    if SideCol !in t.columns || w == 0 || b == 0 then None
    else
      var wr, br := WhiteRate(t.rows), BlackRate(t.rows);
      if Abs(wr - br) > 10.0 then
        if wr > br then Some(BetterWithWhite(wr, br)) else Some(BetterWithBlack(br, wr))
      else None
  }

  /** A side insight's rates are percentages, zero exactly when no game with that
      colour was won; the better side won at least one game. */
  lemma SideInsightRates(t: Table)
    requires SideInsight(t).Some?
    ensures var r := SideInsight(t).value;
      && 0.0 <= r.whiteRate <= 100.0 && 0.0 <= r.blackRate <= 100.0
      && (r.whiteRate == 0.0 <==> CountWhere(t.rows, WhiteWin) == 0)
      && (r.blackRate == 0.0 <==> CountWhere(t.rows, BlackWin) == 0)
      && (r.BetterWithWhite? ==> CountWhere(t.rows, WhiteWin) > 0)
      && (r.BetterWithBlack? ==> CountWhere(t.rows, BlackWin) > 0)
  {
    WinsWithin(t.rows);
  }

  // ---------------------------------------------------------------------------
  // The whole list.

  predicate Filled(o: Option<Insight>) { o.Some? }

  /** The present values among `opts`: one per filled slot, in slot order. */
  function Somes(opts: seq<Option<Insight>>): (r: seq<Insight>)
    ensures |r| == |Seqs.Indices(opts, Filled)|
    ensures forall j :: 0 <= j < |r| ==> opts[Seqs.Indices(opts, Filled)[j]] == Some(r[j])
    ensures forall x :: x in r <==> Some(x) in opts
  {
    var idx := Seqs.Indices(opts, Filled);
    var r := Seqs.Collect(opts, Filled, (o: Option<Insight>) => o);
    forall x | Some(x) in opts ensures x in r {
      var i :| 0 <= i < |opts| && opts[i] == Some(x);
      assert i in idx;
      var j :| 0 <= j < |idx| && idx[j] == i;
      assert r[j] == x;
    }
    r
  }

  predicate WonCopy(g: Game) { IsWin(g.resultCopy) }

  function Overall(rows: seq<Game>): Insight {
    OverallWinRate(Percent(CountWhere(rows, WonCopy), |rows|), CountWhere(rows, WonCopy), |rows|)
  }

  /** The four conditional insights in the order they are tried. */
  function Slots(t: Table): seq<Option<Insight>> {
    [RatingInsight(t), AccuracyInsight(t), AclInsight(t), SideInsight(t)]
  }

  function Conditional(t: Table): seq<Insight> {
    Somes(Slots(t))
  }

  /** Neither the overall rate nor the small-sample notice. */
  predicate Specific(x: Insight) { !x.OverallWinRate? && !x.NeedMoreGames? }

  /** Every conditional slot holds, when filled, a specific insight. */
  lemma SlotsSpecific(t: Table)
    ensures forall j :: 0 <= j < |Slots(t)| && Slots(t)[j].Some? ==> Specific(Slots(t)[j].value)
  {
    var a := AccuracyInsight(t);
    var c := AclInsight(t);
    assert a.Some? ==> a.value.ExcellentAccuracy? || a.value.GoodAccuracy? || a.value.AccuracyTraining?;
    assert c.Some? ==> c.value.StrongPositional? || c.value.DecentPositional? || c.value.PositionalTraining?;
  }

  /** The conditional insights are neither the overall rate nor the small-sample notice. */
  lemma ConditionalKinds(t: Table)
    ensures forall x :: x in Conditional(t) ==> Specific(x)
  {
    SlotsSpecific(t);
    var slots := Slots(t);
    forall x | x in Conditional(t) ensures Specific(x) {
      var j :| 0 <= j < 4 && slots[j] == Some(x);
    }
  }

  /** The found insights, then the overall rate, then the general tips when the
      list is still shorter than three. */
  function Assemble(found: seq<Insight>, overall: Insight): seq<Insight> {
    var base := found + [overall];
    if |base| < 3 then base + GenericInsights else base
  }

  lemma AssembleShape(found: seq<Insight>, overall: Insight)
    ensures var r, k := Assemble(found, overall), |found|;
      && |r| >= 3
      && r[..k] == found
      && r[k] == overall
      && (k + 1 < 3 ==> r[k + 1..] == GenericInsights)
      && (k + 1 >= 3 ==> |r| == k + 1)
  {
    var base := found + [overall];
    assert base[..|found|] == found;
    if |base| < 3 {
      assert (base + GenericInsights)[..|found|] == found;
      assert (base + GenericInsights)[|found| + 1..] == GenericInsights;
    }
  }

  /** `generate_performance_insights(df)['text_insights']`. */
  function GenerateInsights(t: Option<Table>): (r: Outcome<seq<Insight>>)
    ensures t.None? || |t.value.rows| < MinGames ==> r == Ok([NeedMoreGames])
    ensures t.Some? && |t.value.rows| >= MinGames && ResultCopyCol !in t.value.columns ==>
      r == Raised(KeyError(ResultCopyCol))
    ensures t.Some? && |t.value.rows| >= MinGames && ResultCopyCol in t.value.columns ==>
      && r.Ok?
      && var k := |Conditional(t.value)|;
      && k == |Seqs.Indices(Slots(t.value), Filled)|
      && k <= 4
      && |r.value| >= 3 && k < |r.value|
      && r.value[k] == Overall(t.value.rows)
      && (forall i :: 0 <= i < k ==> Slots(t.value)[Seqs.Indices(Slots(t.value), Filled)[i]] == Some(r.value[i]))
      && (forall i :: 0 <= i < k ==> Specific(r.value[i]))
      && (k + 1 < 3 ==> r.value[k + 1..] == GenericInsights)
      && (k + 1 >= 3 ==> |r.value| == k + 1)
      && (forall x :: x in r.value[..k] <==> Some(x) in Slots(t.value))
  {
    if t.None? || |t.value.rows| < MinGames then Ok([NeedMoreGames])
    else if ResultCopyCol !in t.value.columns then Raised(KeyError(ResultCopyCol))
    else
      var core := Conditional(t.value);
      ConditionalKinds(t.value);
      AssembleShape(core, Overall(t.value.rows));
      Ok(Assemble(core, Overall(t.value.rows)))
  }

  /** The overall win rate is the won share of all games, in percent. */
  lemma OverallBounds(rows: seq<Game>)
    ensures var o := Overall(rows);
      && 0.0 <= o.rate <= 100.0
      && (|rows| == 0 ==> o.rate == 0.0)
      && o.wins <= o.games == |rows|
      && o.wins == CountWhere(rows, WonCopy)
      && o.rate == Percent(o.wins, o.games)
  {
  }
}
