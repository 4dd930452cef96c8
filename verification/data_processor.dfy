/** `utils/data_processor.py`: cleaning the raw sheet into the game table, the
    headline statistics, and the per-opening counts. Date parsing and numeric
    coercion (`pd.to_datetime`, `pd.to_numeric(errors='coerce')`) are parameters. */
module DataProcessor {
  import opened Base
  import opened Games
  import opened Tags
  import opened Grouping
  import Text
  import Seqs
  import OpeningExplorer

  // ---------------------------------------------------------------------------
  // `process_chess_data`.

  /** One row of the sheet as read: text cells by column name; a missing key or
      `None` is an empty cell. */
  type RawRow = map<string, Option<string>>

  datatype RawTable = RawTable(columns: set<string>, rows: seq<RawRow>)

  /** What `pd.to_datetime` makes of one cell: a day, `NaT`, or a failure that
      aborts the conversion of the whole column. */
  datatype DateCell = Day(day: int) | NaT | Unparsable

  const RawAclCol: string := "Average Centipawn Loss (ACL)"
  const RawOpponentEloCol: string := "Opponent ELO"

  /** The columns the function reads; any one missing raises `KeyError`, which the
      function turns into `None`. */
  const RequiredColumns: set<string> := {
    DateCol, NumberCol, PerformanceRatingCol, NewRatingCol, GameRatingCol,
    RawOpponentEloCol, AccuracyCol, RawAclCol, ResultCol, SideCol, SparklineCol, OpponentCol}

  /** `columns_to_keep` before the optional `PGN`. */
  const KeptColumns: set<string> := {
    DateCol, NumberCol, PerformanceRatingCol, NewRatingCol, SideCol, ResultCol,
    ResultCopyCol, SparklineCol, AclCol, AccuracyCol, GameRatingCol, OpponentCol, OpponentEloCol}

  /** A cell after `.str.strip()`. */
  function TextCell(row: RawRow, col: string): (r: Option<string>)
    ensures r.Some? <==> col in row && row[col].Some?
    ensures r.Some? ==> Text.Trims(row[col].value, r.value)
    ensures r.Some? && r.value != [] ==> !Text.IsSpace(r.value[0]) && !Text.IsSpace(r.value[|r.value| - 1])
  {
    if col in row && row[col].Some? then Some(Text.Strip(row[col].value)) else None
  }

  /** A stripped cell through `pd.to_numeric(..., errors='coerce')`. */
  function NumberCell(row: RawRow, col: string, toNumber: string -> Option<real>): (r: Option<real>)
    ensures TextCell(row, col).None? ==> r.None?
  {
    match TextCell(row, col)
    case None => None
    case Some(s) => toNumber(s)
  }

  function DateOf(row: RawRow, parseDate: string -> DateCell): DateCell {
    match TextCell(row, DateCol)
    case None => NaT
    case Some(s) => parseDate(s)
  }

  /** `astype(int)`: truncation toward zero. */
  function Trunc(x: real): (n: int)
    ensures x >= 0.0 ==> n as real <= x < n as real + 1.0
    ensures x < 0.0 ==> n as real - 1.0 < x <= n as real
  {
    if x >= 0.0 then x.Floor else -((-x).Floor)
  }

  /** The game-number rule: `fillna(0).astype(int) + 1`. */
  function GameNumber(cell: Option<real>): (n: int)
    ensures cell.None? ==> n == 1
    ensures cell.Some? && cell.value >= 0.0 ==> n >= 1 && (n - 1) as real <= cell.value < n as real
    ensures cell.Some? && cell.value < 0.0 ==> n <= 1 && (n - 2) as real < cell.value <= (n - 1) as real
  {
    match cell
    case None => 1
    case Some(x) => Trunc(x) + 1
  }

  /** A whole number `k` in the `#` column becomes game number `k + 1`. */
  lemma GameNumberOfInteger(k: int)
    ensures GameNumber(Some(k as real)) == k + 1
  {
  }

  /** The cleaned game of one raw row whose date is `day`. */
  function CleanRow(columns: set<string>, row: RawRow, day: int, toNumber: string -> Option<real>): Game {
    Game(
      Some(day),
      GameNumber(NumberCell(row, NumberCol, toNumber)),
      NumberCell(row, PerformanceRatingCol, toNumber),
      NumberCell(row, NewRatingCol, toNumber),
      TextCell(row, SideCol),
      TextCell(row, ResultCol),
      TextCell(row, ResultCol),
      TextCell(row, SparklineCol),
      NumberCell(row, RawAclCol, toNumber),
      NumberCell(row, AccuracyCol, toNumber),
      NumberCell(row, GameRatingCol, toNumber),
      TextCell(row, OpponentCol),
      NumberCell(row, RawOpponentEloCol, toNumber),
      if PgnCol in columns then TextCell(row, PgnCol) else None)
  }

  /** The row mask `df['Date'].notna()`. */
  function Dated(parseDate: string -> DateCell): RawRow -> bool {
    row => DateOf(row, parseDate).Day?
  }

  /** The cleaned game of a raw row with a date, nothing for one without. */
  function CleanDated(columns: set<string>, parseDate: string -> DateCell, toNumber: string -> Option<real>): RawRow -> Option<Game> {
    row => match DateOf(row, parseDate)
      case Day(d) => Some(CleanRow(columns, row, d, toNumber))
      case _ => None
  }

  /** The rows that survive the date filter, cleaned, in their original order. */
  function CleanRows(columns: set<string>, rows: seq<RawRow>, parseDate: string -> DateCell,
                     toNumber: string -> Option<real>): (r: seq<Game>)
    ensures |r| == |Seqs.Indices(rows, Dated(parseDate))|
    ensures forall j :: 0 <= j < |r| ==>
      var src := rows[Seqs.Indices(rows, Dated(parseDate))[j]];
      && DateOf(src, parseDate).Day?
      && r[j] == CleanRow(columns, src, DateOf(src, parseDate).day, toNumber)
  {
    Seqs.Collect(rows, Dated(parseDate), CleanDated(columns, parseDate, toNumber))
  }

  /** `process_chess_data(df)`: `None` for no table, a missing column or an
      unparsable date; otherwise the dated rows, cleaned, under the kept columns. */
  function ProcessChessData(t: Option<RawTable>, parseDate: string -> DateCell,
                            toNumber: string -> Option<real>): (r: Option<Table>)
    ensures t.None? ==> r.None?
    ensures t.Some? ==>
      (r.None? <==>
        || !(RequiredColumns <= t.value.columns)
        || exists i :: 0 <= i < |t.value.rows| && DateOf(t.value.rows[i], parseDate).Unparsable?)
    ensures r.Some? ==>
      && r.value.columns == KeptColumns + (if PgnCol in t.value.columns then {PgnCol} else {})
      && (PgnCol in r.value.columns <==> PgnCol in t.value.columns)
      && |r.value.rows| == |Seqs.Indices(t.value.rows, Dated(parseDate))|
      && forall j :: 0 <= j < |r.value.rows| ==>
        var g, src := r.value.rows[j], t.value.rows[Seqs.Indices(t.value.rows, Dated(parseDate))[j]];
        && DateOf(src, parseDate).Day? && g.date == Some(DateOf(src, parseDate).day)
        && g.resultCopy == g.result == TextCell(src, ResultCol)
        && g.number == GameNumber(NumberCell(src, NumberCol, toNumber))
        && (PgnCol in t.value.columns ==> g.pgn == TextCell(src, PgnCol))
        && (PgnCol !in t.value.columns ==> g.pgn.None?)
  {
    if t.None? || !(RequiredColumns <= t.value.columns) then None
    else if exists i :: 0 <= i < |t.value.rows| && DateOf(t.value.rows[i], parseDate).Unparsable? then None
    else
      assert PgnCol !in KeptColumns;
      Some(Table(KeptColumns + (if PgnCol in t.value.columns then {PgnCol} else {}),
                 CleanRows(t.value.columns, t.value.rows, parseDate, toNumber)))
  }

  /** Every game of the cleaned table has a date, and the rows without one are
      exactly the rows dropped. */
  lemma ProcessedRowsAreDated(t: RawTable, parseDate: string -> DateCell, toNumber: string -> Option<real>)
    requires ProcessChessData(Some(t), parseDate, toNumber).Some?
    ensures var p := ProcessChessData(Some(t), parseDate, toNumber).value;
      && (forall j :: 0 <= j < |p.rows| ==> p.rows[j].date.Some?)
      && |p.rows| == CountWhere(t.rows, Dated(parseDate))
  {
    IndicesCount(t.rows, Dated(parseDate));
  }

  // ---------------------------------------------------------------------------
  // `calculate_statistics`.

  datatype Stats = Stats(totalGames: nat, currentRating: real, winPercentage: real)

  /** The most recent non-null `New Rating`, or `0` when there is none. */
  function LastRating(rows: seq<Game>): (r: real)
    ensures (forall i :: 0 <= i < |rows| ==> rows[i].newRating.None?) ==> r == 0.0
    ensures forall i ::
      (0 <= i < |rows| && rows[i].newRating.Some? && forall m :: i < m < |rows| ==> rows[m].newRating.None?)
      ==> r == rows[i].newRating.value
  {
    if rows == [] then 0.0
    else
      var last := rows[|rows| - 1];
      if last.newRating.Some? then last.newRating.value
      else
        var init := rows[..|rows| - 1];
        assert forall i :: 0 <= i < |init| ==> init[i] == rows[i];
        LastRating(init)
  }

  predicate WonCopy(g: Game) { IsWin(g.resultCopy) }

  /** `calculate_statistics(df)`: zeros without a table; `KeyError` when `New Rating`
      is missing, or `RESULT` is missing from a non-empty table. */
  function CalculateStatistics(t: Option<Table>): (r: Outcome<Stats>)
    ensures t.None? ==> r == Ok(Stats(0, 0.0, 0.0))
    ensures t.Some? && NewRatingCol !in t.value.columns ==> r == Raised(KeyError(NewRatingCol))
    ensures t.Some? && NewRatingCol in t.value.columns && |t.value.rows| > 0 && ResultCopyCol !in t.value.columns ==>
      r == Raised(KeyError(ResultCopyCol))
    ensures t.Some? && NewRatingCol in t.value.columns && (|t.value.rows| == 0 || ResultCopyCol in t.value.columns) ==>
      r.Ok?
    ensures r.Ok? && t.Some? ==>
      var n, wins := |t.value.rows|, CountWhere(t.value.rows, WonCopy);
      && r.value.totalGames == n
      && wins <= n
      && r.value.winPercentage == Percent(wins, n)
      && 0.0 <= r.value.winPercentage <= 100.0
      && (r.value.winPercentage == 0.0 <==> wins == 0)
      && (r.value.winPercentage == 100.0 <==> n > 0 && wins == n)
      && r.value.currentRating == LastRating(t.value.rows)
  {
    if t.None? then Ok(Stats(0, 0.0, 0.0))
    else if NewRatingCol !in t.value.columns then Raised(KeyError(NewRatingCol))
    else
      var rows := t.value.rows;
      if |rows| > 0 && ResultCopyCol !in t.value.columns then Raised(KeyError(ResultCopyCol))
      else Ok(Stats(|rows|, LastRating(rows), Percent(CountWhere(rows, WonCopy), |rows|)))
  }

  /** A game appended with a rating becomes the current rating; one without leaves
      it as it was. */
  lemma LastRatingAppend(rows: seq<Game>, g: Game)
    ensures g.newRating.Some? ==> LastRating(rows + [g]) == g.newRating.value
    ensures g.newRating.None? ==> LastRating(rows + [g]) == LastRating(rows)
  {
    assert (rows + [g])[..|rows|] == rows;
  }

  // ---------------------------------------------------------------------------
  // `get_opening_stats`.

  /** The opening label of a game with PGN text. */
  function OpeningLabel(g: Game): string
    requires PgnPresent(g)
  {
    CaptureOr(g.pgn.value, OpeningTag, OpeningExplorer.UnknownOpening)
  }

  /** The labels of the rows with PGN text; the other rows get `None`, a key that
      `groupby` drops. */
  function ExtractOpenings(rows: seq<Game>): (r: seq<string>)
    ensures |r| == |Seqs.Indices(rows, PgnPresent)|
    ensures forall j :: 0 <= j < |r| ==>
      var g := rows[Seqs.Indices(rows, PgnPresent)[j]];
      PgnPresent(g) && r[j] == OpeningLabel(g)
  {
    Seqs.Collect(rows, PgnPresent, LabelOfGame)
  }

  function LabelOfGame(g: Game): Option<string> {
    if PgnPresent(g) then Some(OpeningLabel(g)) else None
  }

  /** A game whose PGN names an opening other than "Unknown Opening". */
  predicate NamedOpening(g: Game) {
    PgnPresent(g) && Search(g.pgn.value, OpeningTag).Some?
    && Search(g.pgn.value, OpeningTag).value != OpeningExplorer.UnknownOpening
  }

  function Identity(s: string): string { s }
  predicate NotUnknown(s: string) { s != OpeningExplorer.UnknownOpening }
  predicate KnownGroup(p: (string, nat)) { p.0 != OpeningExplorer.UnknownOpening }

  /** The labels that survive the final filter are the games with a named opening. */
  lemma {:induction false} NamedOpeningCount(rows: seq<Game>)
    ensures CountWhere(ExtractOpenings(rows), NotUnknown) == CountWhere(rows, NamedOpening)
  {
    if rows != [] {
      var init, last := rows[..|rows| - 1], rows[|rows| - 1];
      NamedOpeningCount(init);
      var r := ExtractOpenings(init);
      if PgnPresent(last) {
        var x := OpeningLabel(last);
        assert ExtractOpenings(rows) == r + [x];
        assert (r + [x])[..|r|] == r;
        LabelNamed(last);
      } else {
        assert ExtractOpenings(rows) == r;
      }
    }
  }

  /** A label other than "Unknown Opening" is exactly a named opening. */
  lemma LabelNamed(g: Game)
    requires PgnPresent(g)
    ensures NotUnknown(OpeningLabel(g)) == NamedOpening(g)
  {
  }

  /** `value_counts()` of the labels without the "Unknown Opening" group. */
  function KnownGroups(ops: seq<string>): seq<(string, nat)> {
    Seqs.Filter(SortDesc(Tally(ops, Identity)), KnownGroup)
  }

  /** The known groups come sorted, positive and once each, with no "Unknown Opening". */
  lemma KnownGroupsShape(ops: seq<string>)
    ensures var r := KnownGroups(ops);
      && NonIncreasing(r)
      && (forall j :: 0 <= j < |r| ==> r[j].0 != OpeningExplorer.UnknownOpening && r[j].1 >= 1)
      && (forall i, j :: 0 <= i < j < |r| ==> r[i].0 != r[j].0)
  {
    var sorted := SortDesc(Tally(ops, Identity));
    SortPositive(Tally(ops, Identity));
    FilterSorted(sorted, KnownGroup);
  }

  /** The known groups count every label except "Unknown Opening". */
  lemma KnownGroupsTotals(ops: seq<string>)
    ensures var r := KnownGroups(ops);
      && (forall k :: k != OpeningExplorer.UnknownOpening ==> KeyTotal(r, k) == CountKey(ops, Identity, k))
      && Total(r) == CountWhere(ops, NotUnknown)
  {
    var g := Tally(ops, Identity);
    var sorted := SortDesc(g);
    DropKeyTotals(sorted, OpeningExplorer.UnknownOpening, KnownGroup);
    CountKeySplit(ops, Identity, OpeningExplorer.UnknownOpening, NotUnknown);
    assert KeyTotal(sorted, OpeningExplorer.UnknownOpening) == CountKey(ops, Identity, OpeningExplorer.UnknownOpening);
  }

  /** `get_opening_stats(df)`: games per named opening, most played first, without
      the "Unknown Opening" group; empty without a table or PGN column. */
  function GetOpeningStats(t: Option<Table>): (r: seq<(string, nat)>)
    ensures t.None? || PgnCol !in t.value.columns ==> r == []
    ensures NonIncreasing(r)
    ensures forall j :: 0 <= j < |r| ==> r[j].0 != OpeningExplorer.UnknownOpening && r[j].1 >= 1
    ensures forall i, j :: 0 <= i < j < |r| ==> r[i].0 != r[j].0
    ensures t.Some? && PgnCol in t.value.columns ==>
      && (forall k :: k != OpeningExplorer.UnknownOpening ==>
            KeyTotal(r, k) == CountKey(ExtractOpenings(t.value.rows), Identity, k))
      && Total(r) == CountWhere(t.value.rows, NamedOpening)
  {
    if t.None? || PgnCol !in t.value.columns then []
    else
      var ops := ExtractOpenings(t.value.rows);
      KnownGroupsShape(ops);
      KnownGroupsTotals(ops);
      NamedOpeningCount(t.value.rows);
      KnownGroups(ops)
  }
}
