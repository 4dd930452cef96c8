/** `components/opening_explorer.py`: per-game opening labels and the opening
    statistics behind the circle, performance and tree charts and the table. */
module OpeningExplorer {
  import opened Base
  import opened Games
  import opened Tags
  import opened Grouping
  import Seqs

  const UnknownOpening: string := "Unknown Opening"
  const MainLine: string := "Main Line"
  /** What `row.get(col, 'Unknown')` yields when the column is absent. */
  const UnknownCell: string := "Unknown"

  /** One row of `opening_df`. */
  datatype OpeningRow = OpeningRow(opening: string, variation: string, result: Option<string>, side: Option<string>)

  function OpeningOf(o: OpeningRow): string { o.opening }
  function PairOf(o: OpeningRow): (string, string) { (o.opening, o.variation) }
  predicate IsWinRow(o: OpeningRow) { IsWin(o.result) }
  predicate HasResult(o: OpeningRow) { o.result.Some? }

  /** `row.get(col, 'Unknown')`. */
  function CellOr(columns: set<string>, col: string, cell: Option<string>): Option<string> {
    if col in columns then cell else Some(UnknownCell)
  }

  /** The labels of one game whose PGN is present. */
  function LabelRow(columns: set<string>, g: Game): (r: OpeningRow)
    requires PgnPresent(g)
    ensures !HasTag(g.pgn.value, OpeningTag) ==> r.opening == UnknownOpening
    ensures forall i, q, e :: LeftmostTag(g.pgn.value, OpeningTag, i, q, e) ==>
      r.opening == g.pgn.value[q + 1..e]
    ensures !HasTag(g.pgn.value, VariationTag) ==> r.variation == MainLine
    ensures forall i, q, e :: LeftmostTag(g.pgn.value, VariationTag, i, q, e) ==>
      r.variation == g.pgn.value[q + 1..e]
    ensures ResultCol in columns ==> r.result == g.result
    ensures ResultCol !in columns ==> r.result == Some(UnknownCell)
    ensures SideCol in columns ==> r.side == g.side
    ensures SideCol !in columns ==> r.side == Some(UnknownCell)
  {
    var pgn := g.pgn.value;
    OpeningRow(
      CaptureOr(pgn, OpeningTag, UnknownOpening),
      CaptureOr(pgn, VariationTag, MainLine),
      CellOr(columns, ResultCol, g.result),
      CellOr(columns, SideCol, g.side))
  }

  /** The labels of a game with PGN text, nothing for one without. */
  function LabelOf(columns: set<string>): Game -> Option<OpeningRow> {
    g => if PgnPresent(g) then Some(LabelRow(columns, g)) else None
  }

  /** The loop of `extract_opening_data`: rows without PGN text are skipped. */
  function ExtractRows(columns: set<string>, rows: seq<Game>): (r: seq<OpeningRow>)
    ensures |r| == |Seqs.Indices(rows, PgnPresent)|
    ensures forall j :: 0 <= j < |r| ==>
      var g := rows[Seqs.Indices(rows, PgnPresent)[j]];
      PgnPresent(g) && r[j] == LabelRow(columns, g)
  {
    Seqs.Collect(rows, PgnPresent, LabelOf(columns))
  }

  /** `extract_opening_data(df)`: one row per game whose PGN is present, in table
      order; nothing at all without a table or without a PGN column. */
  function ExtractOpeningData(t: Option<Table>): (r: seq<OpeningRow>)
    ensures t.None? || PgnCol !in t.value.columns ==> r == []
    ensures t.Some? && PgnCol in t.value.columns ==>
      var idx := Seqs.Indices(t.value.rows, PgnPresent);
      && |r| == |idx|
      && forall j :: 0 <= j < |r| ==> r[j] == LabelRow(t.value.columns, t.value.rows[idx[j]])
  {
    if t.None? || PgnCol !in t.value.columns then []
    else ExtractRows(t.value.columns, t.value.rows)
  }

  /** The rows kept are exactly the rows whose PGN is present. */
  lemma ExtractKeepsPresentRows(t: Table)
    requires PgnCol in t.columns
    ensures |ExtractOpeningData(Some(t))| == CountWhere(t.rows, PgnPresent)
  {
    IndicesCount(t.rows, PgnPresent);
  }

  // ---------------------------------------------------------------------------
  // Opening popularity (`create_opening_circle_chart`): `value_counts()`.

  /** Games per opening, most played first. */
  function OpeningCounts(od: seq<OpeningRow>): (r: seq<(string, nat)>)
    ensures NonIncreasing(r) && DistinctKeys(r) && Positive(r)
    ensures forall k :: k in KeySet(r) <==> CountKey(od, OpeningOf, k) > 0
    ensures forall k :: KeyTotal(r, k) == CountKey(od, OpeningOf, k)
    ensures Total(r) == |od|
  {
    var g := Tally(od, OpeningOf);
    SortPositive(g);
    SortDesc(g)
  }

  // ---------------------------------------------------------------------------
  // Opening performance (`create_opening_rectangle_chart`).

  /** One bar of the performance chart. The source builds its aggregation from a
      dict literal with the key `'Result'` twice, so the win-rate lambda is replaced
      by `'count'`: the "Win_Rate" bar is the number of non-null results. */
  datatype PerformanceBar = PerformanceBar(opening: string, winRate: real, gameCount: nat)

  predicate AtLeastTwo(p: (string, nat)) { p.1 >= 2 }

  /** The groups kept by `Game_Count >= 2`. */
  function Frequent(od: seq<OpeningRow>): seq<(string, nat)> {
    Seqs.Filter(Tally(od, OpeningOf), AtLeastTwo)
  }

  /** Each kept group has two or more games, and its count is its number of games. */
  lemma FrequentCounts(od: seq<OpeningRow>)
    ensures forall j :: 0 <= j < |Frequent(od)| ==>
      Frequent(od)[j].1 >= 2 && Frequent(od)[j].1 == CountKey(od, OpeningOf, Frequent(od)[j].0)
  {
    TallyCounts(od, OpeningOf);
  }

  /** No opening is kept twice. */
  lemma FrequentDistinct(od: seq<OpeningRow>)
    ensures forall i, j :: 0 <= i < j < |Frequent(od)| ==> Frequent(od)[i].0 != Frequent(od)[j].0
  {
    DistinctKeysIndex(Tally(od, OpeningOf));
  }

  /** Every opening with two or more games is kept. */
  lemma FrequentComplete(od: seq<OpeningRow>, k: string)
    requires CountKey(od, OpeningOf, k) >= 2
    ensures exists j :: 0 <= j < |Frequent(od)| && Frequent(od)[j].0 == k
  {
    FilterTallyComplete(od, OpeningOf, AtLeastTwo, k);
    var f := Frequent(od);
    assert f == Seqs.Filter(Tally(od, OpeningOf), AtLeastTwo);
    var j :| 0 <= j < |f| && f[j].0 == k;
  }

  /** One bar per group of `f`, in order, with the number of recorded results. */
  function CountBars(od: seq<OpeningRow>, f: seq<(string, nat)>): (r: seq<PerformanceBar>)
    requires forall j :: 0 <= j < |f| ==> f[j].1 == CountKey(od, OpeningOf, f[j].0)
    ensures |r| == |f|
    ensures forall j :: 0 <= j < |r| ==>
      && r[j].opening == f[j].0 && r[j].gameCount == f[j].1
      && r[j].winRate == CountKeyWhere(od, OpeningOf, f[j].0, HasResult) as real
      && r[j].winRate <= r[j].gameCount as real
  {
    if f == [] then []
    else [PerformanceBar(f[0].0, CountKeyWhere(od, OpeningOf, f[0].0, HasResult) as real, f[0].1)] + CountBars(od, f[1..])
  }

  /** The statistics plotted by `create_opening_rectangle_chart`, as written. */
  function PerformanceBars(od: seq<OpeningRow>): (r: seq<PerformanceBar>)
    ensures forall j :: 0 <= j < |r| ==>
      && r[j].gameCount >= 2
      && r[j].gameCount == CountKey(od, OpeningOf, r[j].opening)
      && r[j].winRate == CountKeyWhere(od, OpeningOf, r[j].opening, HasResult) as real
      && r[j].winRate <= r[j].gameCount as real
    ensures forall k :: CountKey(od, OpeningOf, k) >= 2 <==> exists j :: 0 <= j < |r| && r[j].opening == k
    ensures forall i, j :: 0 <= i < j < |r| ==> r[i].opening != r[j].opening
  {
    var f := Frequent(od);
    FrequentCounts(od);
    FrequentDistinct(od);
    var r := CountBars(od, f);
    forall k | CountKey(od, OpeningOf, k) >= 2 ensures exists j :: 0 <= j < |r| && r[j].opening == k {
      FrequentComplete(od, k);
      var j :| 0 <= j < |f| && f[j].0 == k;
      assert r[j].opening == k;
    }
    r
  }

  /** As written, a bar's "Win_Rate" is its game count whenever every result is
      recorded, whatever the results are. */
  lemma PerformanceWinRateIsCount(od: seq<OpeningRow>)
    requires forall j :: 0 <= j < |od| ==> od[j].result.Some?
    ensures forall b :: b in PerformanceBars(od) ==> b.winRate == b.gameCount as real
  {
    forall k ensures CountKeyWhere(od, OpeningOf, k, HasResult) == CountKey(od, OpeningOf, k) {
      AllWhere(od, OpeningOf, k, HasResult);
    }
  }

  /** When every element passes `p`, counting with `p` is counting without it. */
  lemma {:induction false} AllWhere<T, K(!new)>(xs: seq<T>, key: T -> K, k: K, p: T -> bool)
    requires forall j :: 0 <= j < |xs| ==> p(xs[j])
    ensures CountKeyWhere(xs, key, k, p) == CountKey(xs, key, k)
  {
    if xs != [] {
      AllWhere(xs[..|xs| - 1], key, k, p);
    }
  }

  /** Two lost games of one opening: the chart shows a "win rate" of 2. */
  lemma PerformanceBarCounterexample()
    ensures var od := [OpeningRow("Sicilian Defense", MainLine, Some("Loss"), Some("White")),
                       OpeningRow("Sicilian Defense", MainLine, Some("Loss"), Some("Black"))];
      PerformanceBars(od) == [PerformanceBar("Sicilian Defense", 2.0, 2)]
  {
    var k := "Sicilian Defense";
    var od := [OpeningRow(k, MainLine, Some("Loss"), Some("White")),
               OpeningRow(k, MainLine, Some("Loss"), Some("Black"))];
    assert od[..1][..0] == [];
    assert od[..1] == [od[0]];
    assert CountKey(od, OpeningOf, k) == 2;
    assert CountKeyWhere(od, OpeningOf, k, HasResult) == 2;
    forall k' | k' != k ensures CountKey(od, OpeningOf, k') == 0 {
    }
    var r := PerformanceBars(od);
    assert |r| >= 1;
    assert forall j :: 0 <= j < |r| ==> r[j].opening == k;
    assert |r| == 1;
    assert r[0] == PerformanceBar(k, 2.0, 2);
  }

  /** The bar the chart evidently means: the share of won games, in percent. */
  datatype RateBar = RateBar(opening: string, winRate: real, gameCount: nat)

  /** One rate bar per group of `f`, in order. */
  function RateBars(od: seq<OpeningRow>, f: seq<(string, nat)>): (r: seq<RateBar>)
    requires forall j :: 0 <= j < |f| ==> f[j].1 == CountKey(od, OpeningOf, f[j].0)
    ensures |r| == |f|
    ensures forall j :: 0 <= j < |r| ==>
      var wins := CountKeyWhere(od, OpeningOf, f[j].0, IsWinRow);
      && r[j].opening == f[j].0 && r[j].gameCount == f[j].1
      && 0.0 <= r[j].winRate <= 100.0
      && (r[j].winRate == 0.0 <==> wins == 0)
      && (r[j].winRate == 100.0 <==> f[j].1 > 0 && wins == f[j].1)
      && r[j].winRate == Percent(wins, f[j].1)
  {
    if f == [] then []
    else [RateBar(f[0].0, Percent(CountKeyWhere(od, OpeningOf, f[0].0, IsWinRow), f[0].1), f[0].1)] + RateBars(od, f[1..])
  }

  /** Corrected performance chart: each bar's height is the opening's win rate. */
  function IntendedPerformanceBars(od: seq<OpeningRow>): (r: seq<RateBar>)
    ensures forall j :: 0 <= j < |r| ==>
      && r[j].gameCount >= 2
      && r[j].gameCount == CountKey(od, OpeningOf, r[j].opening)
      && 0.0 <= r[j].winRate <= 100.0
      && (r[j].winRate == 0.0 <==> CountKeyWhere(od, OpeningOf, r[j].opening, IsWinRow) == 0)
      && (r[j].winRate == 100.0 <==>
            CountKeyWhere(od, OpeningOf, r[j].opening, IsWinRow) == r[j].gameCount)
      && r[j].winRate == Percent(CountKeyWhere(od, OpeningOf, r[j].opening, IsWinRow), r[j].gameCount)
    ensures forall k :: CountKey(od, OpeningOf, k) >= 2 <==> exists j :: 0 <= j < |r| && r[j].opening == k
    ensures forall i, j :: 0 <= i < j < |r| ==> r[i].opening != r[j].opening
  {
    var f := Frequent(od);
    FrequentCounts(od);
    FrequentDistinct(od);
    var r := RateBars(od, f);
    forall k | CountKey(od, OpeningOf, k) >= 2 ensures exists j :: 0 <= j < |r| && r[j].opening == k {
      FrequentComplete(od, k);
      var j :| 0 <= j < |f| && f[j].0 == k;
      assert r[j].opening == k;
    }
    r
  }

  // ---------------------------------------------------------------------------
  // Opening tree (`create_opening_tree_diagram`, shared with `opening_tree.py`).

  /** One treemap rectangle: an (opening, variation) group. */
  datatype TreeNode = TreeNode(id: string, name: string, parent: string, value: nat)

  function NodeTotal(ns: seq<TreeNode>): nat {
    if ns == [] then 0 else ns[0].value + NodeTotal(ns[1..])
  }

  function NodesFrom(g: seq<((string, string), nat)>): (r: seq<TreeNode>)
    ensures |r| == |g|
    ensures forall j :: 0 <= j < |r| ==>
      && r[j].parent == g[j].0.0 && r[j].name == g[j].0.1 && r[j].value == g[j].1
      && r[j].id == r[j].parent + " - " + r[j].name
    ensures NodeTotal(r) == Total(g)
  {
    if g == [] then []
    else
      var r := [TreeNode(g[0].0.0 + " - " + g[0].0.1, g[0].0.1, g[0].0.0, g[0].1)] + NodesFrom(g[1..]);
      assert r[1..] == NodesFrom(g[1..]);
      r
  }

  /** `groupby(['Opening', 'Variation']).size()` turned into treemap rectangles. */
  function TreeNodes<T>(xs: seq<T>, pairOf: T -> (string, string)): (r: seq<TreeNode>)
    ensures forall j :: 0 <= j < |r| ==>
      && r[j].id == r[j].parent + " - " + r[j].name
      && r[j].value >= 1
      && r[j].value == CountKey(xs, pairOf, (r[j].parent, r[j].name))
    ensures forall p :: CountKey(xs, pairOf, p) > 0 <==>
      exists j :: 0 <= j < |r| && (r[j].parent, r[j].name) == p
    ensures forall i, j :: 0 <= i < j < |r| ==> (r[i].parent, r[i].name) != (r[j].parent, r[j].name)
    ensures NodeTotal(r) == |xs|
  {
    var g := Tally(xs, pairOf);
    TallyCounts(xs, pairOf);
    DistinctKeysIndex(g);
    var r := NodesFrom(g);
    forall p | CountKey(xs, pairOf, p) > 0 ensures exists j :: 0 <= j < |r| && (r[j].parent, r[j].name) == p {
      KeySetIndex(g, p);
      var j :| 0 <= j < |g| && g[j].0 == p;
      assert (r[j].parent, r[j].name) == p;
    }
    r
  }

  /** The rectangles of `create_opening_tree_diagram`. */
  function OpeningTreeDiagram(od: seq<OpeningRow>): (r: seq<TreeNode>)
    ensures forall j :: 0 <= j < |r| ==>
      && r[j].id == r[j].parent + " - " + r[j].name
      && r[j].value >= 1
      && r[j].value == CountKey(od, PairOf, (r[j].parent, r[j].name))
    ensures forall i, j :: 0 <= i < j < |r| ==> (r[i].parent, r[i].name) != (r[j].parent, r[j].name)
    ensures NodeTotal(r) == |od|
  {
    TreeNodes(od, PairOf)
  }

  /** Rectangle ids are not unique in general: two games whose different
      (opening, variation) pairs join to the same "opening - variation" text give
      two rectangles of the treemap with one id. */
  lemma TreeIdsCollide(od: seq<OpeningRow>, x: nat, y: nat)
    requires x < |od| && y < |od| && PairOf(od[x]) != PairOf(od[y])
    requires od[x].opening + " - " + od[x].variation == od[y].opening + " - " + od[y].variation
    ensures var r := OpeningTreeDiagram(od);
      exists i, j :: 0 <= i < j < |r| && r[i].id == r[j].id && (r[i].parent, r[i].name) != (r[j].parent, r[j].name)
  {
    CountKeyPositive(od, PairOf, PairOf(od[x]));
    CountKeyPositive(od, PairOf, PairOf(od[y]));
    var r := TreeNodes(od, PairOf);
    assert r == OpeningTreeDiagram(od);
    var a :| 0 <= a < |r| && (r[a].parent, r[a].name) == PairOf(od[x]);
    var b :| 0 <= b < |r| && (r[b].parent, r[b].name) == PairOf(od[y]);
    var i, j := if a < b then a else b, if a < b then b else a;
    assert 0 <= i < j < |r| && r[i].id == r[j].id && (r[i].parent, r[i].name) != (r[j].parent, r[j].name);
  }

  /** Such games exist: `A - B` with variation `C`, and `A` with variation `B - C`. */
  lemma TreeIdsCanCollide(od: seq<OpeningRow>)
    requires od == [OpeningRow("A - B", "C", None, None), OpeningRow("A", "B - C", None, None)]
    ensures var r := OpeningTreeDiagram(od);
      exists i, j :: 0 <= i < j < |r| && r[i].id == r[j].id && (r[i].parent, r[i].name) != (r[j].parent, r[j].name)
  {
    assert od[0].opening + " - " + od[0].variation == od[1].opening + " - " + od[1].variation;
    TreeIdsCollide(od, 0, 1);
  }

  // ---------------------------------------------------------------------------
  // Statistics table (`create_opening_explorer`).

  /** The distinct variation labels seen with opening `k`: `nunique` of a group. */
  function VariationSet(od: seq<OpeningRow>, k: string): (vs: set<string>)
    ensures forall v :: v in vs <==> exists i :: 0 <= i < |od| && od[i].opening == k && od[i].variation == v
    ensures |vs| <= CountKey(od, OpeningOf, k)
    ensures CountKey(od, OpeningOf, k) > 0 ==> |vs| >= 1
  {
    if od == [] then {}
    else
      var init, last := od[..|od| - 1], od[|od| - 1];
      var vs := VariationSet(init, k);
      assert forall i :: 0 <= i < |init| ==> init[i] == od[i];
      if last.opening == k then
        assert last.variation in vs + {last.variation};
        vs + {last.variation}
      else vs
  }

  /** One row of the opening statistics table. "Total Games" is the pandas
      `'count'` aggregation, which counts non-null results only. */
  datatype OpeningStats = OpeningStats(opening: string, totalGames: nat, variations: nat, winRate: real)

  /** The table row of an opening that has games: its win rate in percent over all
      its games, and its number of distinct variations. */
  function StatsRow(od: seq<OpeningRow>, k: string): (r: OpeningStats)
    requires CountKey(od, OpeningOf, k) > 0
    ensures var size, wins := CountKey(od, OpeningOf, k), CountKeyWhere(od, OpeningOf, k, IsWinRow);
      && r.opening == k
      && 0.0 <= r.winRate <= 100.0
      && (r.winRate == 0.0 <==> wins == 0)
      && (r.winRate == 100.0 <==> wins == size)
      && r.winRate == Percent(wins, size)
      && r.variations == |VariationSet(od, k)|
      && 1 <= r.variations <= size
      && r.totalGames == CountKeyWhere(od, OpeningOf, k, HasResult)
      && r.totalGames <= size
  {
    OpeningStats(k,
      CountKeyWhere(od, OpeningOf, k, HasResult),
      |VariationSet(od, k)|,
      Percent(CountKeyWhere(od, OpeningOf, k, IsWinRow), CountKey(od, OpeningOf, k)))
  }

  /** "Total Games" is the group size exactly when no game of the table lacks a result. */
  lemma {:induction false} StatsTotalGamesIsSize(od: seq<OpeningRow>, k: string)
    requires CountKey(od, OpeningOf, k) > 0
    requires forall j :: 0 <= j < |od| ==> od[j].result.Some?
    ensures StatsRow(od, k).totalGames == CountKey(od, OpeningOf, k)
  {
    AllWhere(od, OpeningOf, k, HasResult);
  }

  /** The table rows of the groups `g`, in order. */
  function StatsRows(od: seq<OpeningRow>, g: seq<(string, nat)>): (r: seq<OpeningStats>)
    requires forall j :: 0 <= j < |g| ==> CountKey(od, OpeningOf, g[j].0) > 0
    ensures |r| == |g|
    ensures forall j :: 0 <= j < |r| ==> r[j] == StatsRow(od, g[j].0)
  {
    if g == [] then [] else [StatsRow(od, g[0].0)] + StatsRows(od, g[1..])
  }

  /** The opening statistics table: one row per opening seen, none twice. */
  function StatsTable(od: seq<OpeningRow>): (r: seq<OpeningStats>)
    ensures forall k :: CountKey(od, OpeningOf, k) > 0 <==> exists j :: 0 <= j < |r| && r[j].opening == k
    ensures forall i, j :: 0 <= i < j < |r| ==> r[i].opening != r[j].opening
    ensures forall j :: 0 <= j < |r| ==>
      CountKey(od, OpeningOf, r[j].opening) > 0 && r[j] == StatsRow(od, r[j].opening)
  {
    var g := Tally(od, OpeningOf);
    TallyCounts(od, OpeningOf);
    StatsTableCovers(od);
    StatsRows(od, g)
  }

  /** The rows built from the groups of `groupby('Opening')` list every opening
      seen, once each. */
  lemma StatsTableCovers(od: seq<OpeningRow>)
    ensures var g := Tally(od, OpeningOf);
      && (forall j :: 0 <= j < |g| ==> CountKey(od, OpeningOf, g[j].0) > 0)
      && (forall i, j :: 0 <= i < j < |g| ==> g[i].0 != g[j].0)
      && (forall k :: CountKey(od, OpeningOf, k) > 0 ==> exists j :: 0 <= j < |g| && g[j].0 == k)
  {
    var g := Tally(od, OpeningOf);
    TallyCounts(od, OpeningOf);
    DistinctKeysIndex(g);
    forall k | CountKey(od, OpeningOf, k) > 0 ensures exists j :: 0 <= j < |g| && g[j].0 == k {
      KeySetIndex(g, k);
    }
  }
}
