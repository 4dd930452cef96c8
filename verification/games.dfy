/** The game log as the dashboard sees it: one typed row per game, and a table
    that also records which columns exist (the code tests `'PGN' in df.columns`
    and friends). A field whose column is absent carries no meaning. */
module Games {
  import opened Base
  import Text

  datatype Game = Game(
    date: Option<int>,               // `Date`, as a day number; `None` is NaT
    number: int,                     // `#`
    performanceRating: Option<real>, // `Performance Rating`
    newRating: Option<real>,         // `New Rating`
    side: Option<string>,            // `Side`
    result: Option<string>,          // `Result`
    resultCopy: Option<string>,      // `RESULT`
    sparkline: Option<string>,       // `sparkline data`
    acl: Option<real>,               // `ACL`
    accuracy: Option<real>,          // `Accuracy %`
    gameRating: Option<real>,        // `Game Rating`
    opponent: Option<string>,        // `Opponent Name`
    opponentElo: Option<real>,       // `Opp. ELO`
    pgn: Option<string>)             // `PGN`

  datatype Table = Table(columns: set<string>, rows: seq<Game>)

  const DateCol: string := "Date"
  const NumberCol: string := "#"
  const PerformanceRatingCol: string := "Performance Rating"
  const NewRatingCol: string := "New Rating"
  const SideCol: string := "Side"
  const ResultCol: string := "Result"
  const ResultCopyCol: string := "RESULT"
  const SparklineCol: string := "sparkline data"
  const AclCol: string := "ACL"
  const AccuracyCol: string := "Accuracy %"
  const GameRatingCol: string := "Game Rating"
  const OpponentCol: string := "Opponent Name"
  const OpponentEloCol: string := "Opp. ELO"
  const PgnCol: string := "PGN"

  /** The PGN cell holds text: `not (pd.isna(pgn) or not pgn)`. */
  predicate PgnPresent(g: Game) {
    g.pgn.Some? && g.pgn.value != ""
  }

  /** `cell.lower() == word` for a result cell; a missing cell never matches. */
  predicate LowerIs(cell: Option<string>, word: string) {
    cell.Some? && Text.Lower(cell.value) == word
  }

  /** `cell.upper()` is one of `words`; a missing cell never matches. */
  predicate UpperIn(cell: Option<string>, words: set<string>) {
    cell.Some? && Text.Upper(cell.value) in words
  }

  predicate IsWin(result: Option<string>) { LowerIs(result, "win") }
  predicate IsLoss(result: Option<string>) { LowerIs(result, "loss") }
  predicate IsDraw(result: Option<string>) { LowerIs(result, "draw") }

  /** The side spellings the dashboard treats as White: `W`, `WHITE` in any case. */
  predicate IsWhite(side: Option<string>) { UpperIn(side, {"W", "WHITE"}) }
  /** The side spellings the dashboard treats as Black: `B`, `BLACK` in any case. */
  predicate IsBlack(side: Option<string>) { UpperIn(side, {"B", "BLACK"}) }

  /** A result is at most one of win, loss and draw. */
  lemma ResultKindsExclusive(result: Option<string>)
    ensures !(IsWin(result) && IsLoss(result))
    ensures !(IsWin(result) && IsDraw(result))
    ensures !(IsLoss(result) && IsDraw(result))
  {
  }

  /** No side is both White and Black. */
  lemma SidesExclusive(side: Option<string>)
    ensures !(IsWhite(side) && IsBlack(side))
  {
  }

  /** `value / whole * 100`, the percentage every win rate of the dashboard uses,
      as an exact real; `0` when there is nothing to divide by. */
  function Percent(part: nat, whole: nat): (r: real)
    requires part <= whole
    ensures 0.0 <= r <= 100.0
    ensures r == 0.0 <==> part == 0
    ensures r == 100.0 <==> whole > 0 && part == whole
    ensures whole > 0 ==> r * (whole as real) == (part as real) * 100.0
  {
    if whole == 0 then 0.0
    else
      var p, w := part as real, whole as real;
      assert p / w <= 1.0;
      assert p < w ==> p / w < 1.0;
      p / w * 100.0
  }
}
