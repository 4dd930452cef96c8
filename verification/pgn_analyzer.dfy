/** `utils/pgn_analyzer.py`: opening tags of one PGN text and the length class
    of a parsed game. The PGN parser itself is a parameter. */
module PgnAnalyzer {
  import opened Base
  import opened Tags
  import Games
  import OpeningExplorer
  import OpeningTree

  /** `extract_opening_from_pgn(pgn_text)`: both tags, each `None` when absent,
      and `(None, None)` for a missing or empty text. */
  function ExtractOpeningFromPgn(text: Option<string>): (r: (Option<string>, Option<string>))
    ensures text.None? || text.value == "" ==> r == (None, None)
    ensures text.Some? && text.value != "" ==>
      && (r.0.None? <==> !HasTag(text.value, OpeningTag))
      && (r.1.None? <==> !HasTag(text.value, VariationTag))
      && (forall i, q, e :: LeftmostTag(text.value, OpeningTag, i, q, e) ==> r.0 == Some(text.value[q + 1..e]))
      && (forall i, q, e :: LeftmostTag(text.value, VariationTag, i, q, e) ==> r.1 == Some(text.value[q + 1..e]))
    ensures r.0.Some? ==> r.0.value != [] && '"' !in r.0.value
    ensures r.1.Some? ==> r.1.value != [] && '"' !in r.1.value
  {
    if text.None? || text.value == "" then (None, None)
    else
      var s := text.value;
      forall i, q, e | LeftmostTag(s, OpeningTag, i, q, e) ensures Search(s, OpeningTag) == Some(s[q + 1..e]) {
        SearchExact(s, OpeningTag, i, q, e);
      }
      forall i, q, e | LeftmostTag(s, VariationTag, i, q, e) ensures Search(s, VariationTag) == Some(s[q + 1..e]) {
        SearchExact(s, VariationTag, i, q, e);
      }
      (Search(s, OpeningTag), Search(s, VariationTag))
  }

  /** The four extractors of the dashboard read the same tags and differ only in
      their sentinels: on a present PGN the explorer, the tree and this analyzer
      agree wherever a tag exists. */
  lemma ExtractorsAgree(columns: set<string>, g: Games.Game)
    requires Games.PgnPresent(g)
    ensures var a := ExtractOpeningFromPgn(g.pgn);
      var row := OpeningExplorer.LabelRow(columns, g);
      var tree := OpeningTree.TreeLabels(g.pgn.value);
      && (a.0.Some? ==> row.opening == a.0.value && tree.0 == a.0.value)
      && (a.0.None? ==> row.opening == OpeningExplorer.UnknownOpening && tree.0 == OpeningTree.UnknownLabel)
      && (a.1.Some? ==> row.variation == a.1.value && tree.1 == a.1.value)
      && (a.1.None? ==> row.variation == OpeningExplorer.MainLine && tree.1 == OpeningExplorer.MainLine)
  {
    var s := g.pgn.value;
    var a := ExtractOpeningFromPgn(g.pgn);
    if a.0.Some? {
      var i, q, e :| LeftmostTag(s, OpeningTag, i, q, e) && a.0.value == s[q + 1..e];
    }
    if a.1.Some? {
      var i, q, e :| LeftmostTag(s, VariationTag, i, q, e) && a.1.value == s[q + 1..e];
    }
  }

  /** What `parse_pgn_game` returns on success, as far as the analyzer reads it:
      the SAN moves of the main line and the `Opening` and `Variation` headers
      (empty when absent). The parser is python-chess and is not modelled. */
  datatype ParsedGame = ParsedGame(moves: seq<string>, opening: string, variation: string)

  datatype GameLength = Short | Medium | Long

  /** Short games have fewer than 20 moves, medium ones fewer than 40. */
  function LengthOf(moveCount: nat): (r: GameLength)
    ensures r == Short <==> moveCount < 20
    ensures r == Medium <==> 20 <= moveCount < 40
    ensures r == Long <==> 40 <= moveCount
  {
    if moveCount < 20 then Short
    else if moveCount < 40 then Medium
    else Long
  }

  function Rank(l: GameLength): nat {
    match l
    case Short => 0
    case Medium => 1
    case Long => 2
  }

  /** A longer game never falls into a shorter class. */
  lemma LengthMonotone(m: nat, n: nat)
    requires m <= n
    ensures Rank(LengthOf(m)) <= Rank(LengthOf(n))
  {
  }

  datatype Quality = Quality(moveCount: nat, gameLength: GameLength, opening: string, variation: string)

  /** `analyze_game_quality(pgn_text)` with `parse_pgn_game` given as `parse`:
      `None` when parsing fails, else the move count, its class and the headers. */
  function AnalyzeGameQuality(text: string, parse: string -> Option<ParsedGame>): (r: Option<Quality>)
    ensures parse(text).None? <==> r.None?
    ensures r.Some? ==>
      var p := parse(text).value;
      && r.value.moveCount == |p.moves|
      && r.value.opening == p.opening && r.value.variation == p.variation
      && (r.value.gameLength == Short <==> |p.moves| < 20)
      && (r.value.gameLength == Long <==> |p.moves| >= 40)
  {
    match parse(text)
    case None => None
    case Some(p) => Some(Quality(|p.moves|, LengthOf(|p.moves|), p.opening, p.variation))
  }
}
