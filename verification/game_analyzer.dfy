/** `components/game_analyzer.py`: the result distribution, the win rate per raw
    side value, and the recent-games table of the game analysis panel. */
module GameAnalyzer {
  import opened Base
  import opened Games
  import opened Grouping
  import Seqs

  /** The columns of the recent-games table, in display order, when present. */
  const DisplayColumns: seq<string> := [DateCol, SideCol, ResultCol, AccuracyCol, AclCol, OpponentCol]
  const ShownRows: nat := 10

  function ResultKey(g: Game): Option<string> { g.result }
  function SideKey(g: Game): Option<string> { g.side }
  predicate Won(g: Game) { IsWin(g.result) }
  predicate NonNullKey(p: (Option<string>, nat)) { p.0.Some? }

  /** `df['Result'].value_counts()`: the count of every raw result value, exact
      spelling and case, most frequent first; missing results are not counted. */
  function ResultCounts(rows: seq<Game>): (r: seq<(Option<string>, nat)>)
    ensures NonIncreasing(r)
    ensures forall j :: 0 <= j < |r| ==> r[j].0.Some? && r[j].1 >= 1
    ensures forall i, j :: 0 <= i < j < |r| ==> r[i].0 != r[j].0
    ensures forall v :: KeyTotal(r, Some(v)) == CountKey(rows, ResultKey, Some(v))
    ensures Total(r) + CountKey(rows, ResultKey, None) == |rows|
  {
    CountsSorted(Tally(rows, ResultKey));
    CountsTotals(rows, ResultKey);
    NonNullCounts(Tally(rows, ResultKey))
  }

  /** The groups of `g` with a non-null key, most frequent first. */
  function NonNullCounts(g: seq<(Option<string>, nat)>): seq<(Option<string>, nat)> {
    Seqs.Filter(SortDesc(g), NonNullKey)
  }

  /** The non-null groups come sorted, positive, once each and with non-null keys. */
  lemma CountsSorted(g: seq<(Option<string>, nat)>)
    requires DistinctKeys(g) && Positive(g)
    ensures var r := NonNullCounts(g);
      && NonIncreasing(r)
      && (forall j :: 0 <= j < |r| ==> r[j].0.Some? && r[j].1 >= 1)
      && (forall i, j :: 0 <= i < j < |r| ==> r[i].0 != r[j].0)
  {
    SortPositive(g);
    FilterSorted(SortDesc(g), NonNullKey);
  }

  /** The non-null groups count every element except those with a null key. */
  lemma CountsTotals<T>(xs: seq<T>, key: T -> Option<string>)
    ensures var r := NonNullCounts(Tally(xs, key));
      && (forall v :: KeyTotal(r, Some(v)) == CountKey(xs, key, Some(v)))
      && Total(r) + CountKey(xs, key, None) == |xs|
  {
    var g := Tally(xs, key);
    var sorted := SortDesc(g);
    var r := Seqs.Filter(sorted, NonNullKey);
    DropKeyTotals(sorted, None, NonNullKey);
    forall v ensures KeyTotal(r, Some(v)) == CountKey(xs, key, Some(v)) {
      assert KeyTotal(r, Some(v)) == KeyTotal(sorted, Some(v));
      assert KeyTotal(sorted, Some(v)) == KeyTotal(g, Some(v));
    }
    assert Total(r) + KeyTotal(sorted, None) == Total(sorted);
    assert KeyTotal(sorted, None) == KeyTotal(g, None);
  }

  /** One bar of "Win Rate by Side": a raw side value and the percentage of its
      games whose result is a win, over all its games. */
  datatype SideRate = SideRate(side: string, winRate: real)

  function SideRates(rows: seq<Game>, g: seq<(Option<string>, nat)>): (r: seq<SideRate>)
    requires forall j :: 0 <= j < |g| ==> g[j].0.Some? && g[j].1 >= 1 && g[j].1 == CountKey(rows, SideKey, g[j].0)
    ensures |r| == |g|
    ensures forall j :: 0 <= j < |r| ==>
      var n, wins := CountKey(rows, SideKey, Some(r[j].side)), CountKeyWhere(rows, SideKey, Some(r[j].side), Won);
      && Some(r[j].side) == g[j].0
      && n >= 1
      && wins <= n
      && r[j].winRate == Percent(wins, n)
      && 0.0 <= r[j].winRate <= 100.0
      && (r[j].winRate == 0.0 <==> wins == 0)
      && (r[j].winRate == 100.0 <==> wins == n)
  {
    if g == [] then []
    else [SideRate(g[0].0.value, Percent(CountKeyWhere(rows, SideKey, g[0].0, Won), g[0].1))] + SideRates(rows, g[1..])
  }

  /** The groups of `groupby('Side')`: null sides are dropped. */
  function SideGroups(rows: seq<Game>): seq<(Option<string>, nat)> {
    Seqs.Filter(Tally(rows, SideKey), NonNullKey)
  }

  /** Each side group is a non-null side with its game count. */
  lemma SideGroupsCounts(rows: seq<Game>)
    ensures var n := SideGroups(rows);
      forall j :: 0 <= j < |n| ==> n[j].0.Some? && n[j].1 >= 1 && n[j].1 == CountKey(rows, SideKey, n[j].0)
  {
    TallyCounts(rows, SideKey);
  }

  /** No side has two groups. */
  lemma SideGroupsDistinct(rows: seq<Game>)
    ensures var n := SideGroups(rows);
      forall i, j :: 0 <= i < j < |n| ==> n[i].0 != n[j].0
  {
    DistinctKeysIndex(Tally(rows, SideKey));
  }

  /** Every side that occurs has a group. */
  lemma SideGroupsComplete(rows: seq<Game>, s: string)
    requires CountKey(rows, SideKey, Some(s)) > 0
    ensures exists j :: 0 <= j < |SideGroups(rows)| && SideGroups(rows)[j].0 == Some(s)
  {
    FilterTallyComplete(rows, SideKey, NonNullKey, Some(s));
    var n := SideGroups(rows);
    assert n == Seqs.Filter(Tally(rows, SideKey), NonNullKey);
    var j :| 0 <= j < |n| && n[j].0 == Some(s);
  }

  /** `df.groupby('Side')['Result'].apply(...)`: one rate per non-null raw side value,
      with no merging of spellings such as `W` and `White`. */
  function WinRateBySide(rows: seq<Game>): (r: seq<SideRate>)
    ensures forall j :: 0 <= j < |r| ==>
      var n, wins := CountKey(rows, SideKey, Some(r[j].side)), CountKeyWhere(rows, SideKey, Some(r[j].side), Won);
      && n >= 1
      && wins <= n
      && r[j].winRate == Percent(wins, n)
      && 0.0 <= r[j].winRate <= 100.0
      && (r[j].winRate == 0.0 <==> wins == 0)
      && (r[j].winRate == 100.0 <==> wins == n)
    ensures forall i, j :: 0 <= i < j < |r| ==> r[i].side != r[j].side
    ensures forall s :: CountKey(rows, SideKey, Some(s)) > 0 <==> exists j :: 0 <= j < |r| && r[j].side == s
  {
    SideGroupsCounts(rows);
    SideGroupsDistinct(rows);
    var g := SideGroups(rows);
    var r := SideRates(rows, g);
    forall s | CountKey(rows, SideKey, Some(s)) > 0 ensures exists j :: 0 <= j < |r| && r[j].side == s {
      SideGroupsComplete(rows, s);
      var j :| 0 <= j < |g| && g[j].0 == Some(s);
      assert r[j].side == s;
    }
    r
  }

  /** What the panel shows; `None` for the parts whose columns are missing. */
  datatype Analysis = Analysis(
    resultCounts: Option<seq<(Option<string>, nat)>>,
    sideRates: Option<seq<SideRate>>,
    columns: seq<string>,
    recent: seq<Game>)

  /** `[col for col in display_cols if col in df.columns]`. */
  function AvailableColumns(columns: set<string>): (r: seq<string>)
    ensures forall c :: c in r <==> c in DisplayColumns && c in columns
  {
    Seqs.FilterMembers(DisplayColumns, c => c in columns);
    Seqs.Filter(DisplayColumns, c => c in columns)
  }

  /** `create_game_analyzer(df)`: nothing for a missing or empty table. */
  function CreateGameAnalyzer(t: Option<Table>): (r: Option<Analysis>)
    ensures r.None? <==> t.None? || |t.value.rows| == 0 || t.value.columns == {}
    ensures r.Some? ==>
      && (r.value.resultCounts.Some? <==> ResultCol in t.value.columns)
      && (r.value.resultCounts.Some? ==> r.value.resultCounts.value == ResultCounts(t.value.rows))
      && (r.value.sideRates.Some? <==> SideCol in t.value.columns && ResultCol in t.value.columns)
      && (r.value.sideRates.Some? ==> r.value.sideRates.value == WinRateBySide(t.value.rows))
      && r.value.columns == AvailableColumns(t.value.columns)
      && (forall c :: c in r.value.columns <==> c in DisplayColumns && c in t.value.columns)
      && |r.value.recent| == (if |t.value.rows| < ShownRows then |t.value.rows| else ShownRows)
      && r.value.recent == t.value.rows[..|r.value.recent|]
  {
    if t.None? || |t.value.rows| == 0 || t.value.columns == {} then None
    else
      var rows := t.value.rows;
      var n := if |rows| < ShownRows then |rows| else ShownRows;
      Some(Analysis(
        if ResultCol in t.value.columns then Some(ResultCounts(rows)) else None,
        if SideCol in t.value.columns && ResultCol in t.value.columns then Some(WinRateBySide(rows)) else None,
        AvailableColumns(t.value.columns),
        rows[..n]))
  }

  /** The displayed columns keep the fixed display order. */
  lemma AvailableColumnsOrdered(columns: set<string>)
    ensures forall i, j :: 0 <= i < j < |AvailableColumns(columns)| ==>
      exists a, b :: 0 <= a < b < |DisplayColumns|
        && DisplayColumns[a] == AvailableColumns(columns)[i] && DisplayColumns[b] == AvailableColumns(columns)[j]
  {
    var r := AvailableColumns(columns);
    var idx := Seqs.Indices(DisplayColumns, c => c in columns);
    forall i, j | 0 <= i < j < |r|
      ensures exists a, b :: 0 <= a < b < |DisplayColumns| && DisplayColumns[a] == r[i] && DisplayColumns[b] == r[j]
    {
      assert DisplayColumns[idx[i]] == r[i] && DisplayColumns[idx[j]] == r[j];
    }
  }
}
