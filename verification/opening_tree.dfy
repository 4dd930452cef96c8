/** `components/opening_tree.py`: the treemap of (opening, variation) groups and
    the per-opening game counts shown beside it. */
module OpeningTree {
  import opened Base
  import opened Games
  import opened Tags
  import opened Grouping
  import Seqs
  import OpeningExplorer

  /** The sentinel this view gives a PGN without an `Opening` tag. */
  const UnknownLabel: string := "Unknown"

  /** The (opening, variation) labels of one PGN text. */
  function TreeLabels(pgn: string): (r: (string, string))
    ensures !HasTag(pgn, OpeningTag) ==> r.0 == UnknownLabel
    ensures forall i, q, e :: LeftmostTag(pgn, OpeningTag, i, q, e) ==> r.0 == pgn[q + 1..e]
    ensures !HasTag(pgn, VariationTag) ==> r.1 == OpeningExplorer.MainLine
    ensures forall i, q, e :: LeftmostTag(pgn, VariationTag, i, q, e) ==> r.1 == pgn[q + 1..e]
  {
    (CaptureOr(pgn, OpeningTag, UnknownLabel), CaptureOr(pgn, VariationTag, OpeningExplorer.MainLine))
  }

  /** The labels of a game with PGN text, nothing for one without. */
  function PairOfGame(g: Game): Option<(string, string)> {
    if PgnPresent(g) then Some(TreeLabels(g.pgn.value)) else None
  }

  /** The extraction loop: the labels of every game with PGN text, in table order. */
  function ExtractPairs(rows: seq<Game>): (r: seq<(string, string)>)
    ensures |r| == |Seqs.Indices(rows, PgnPresent)|
    ensures forall j :: 0 <= j < |r| ==>
      var g := rows[Seqs.Indices(rows, PgnPresent)[j]];
      PgnPresent(g) && r[j] == TreeLabels(g.pgn.value)
  {
    Seqs.Collect(rows, PgnPresent, PairOfGame)
  }

  function PairId(p: (string, string)): (string, string) { p }
  function FirstOf(p: (string, string)): string { p.0 }

  /** What the view draws: the treemap rectangles and the sorted per-opening counts. */
  datatype TreeView = TreeView(nodes: seq<OpeningExplorer.TreeNode>, openingCounts: seq<(string, nat)>)

  /** `create_opening_tree_visualization(df)`: nothing for a missing or empty table,
      a table without PGN column, or one without any PGN text; otherwise one
      rectangle per (opening, variation) group and the openings by popularity. */
  function OpeningTreeVisualization(t: Option<Table>): (r: Option<TreeView>)
    ensures r.None? <==>
      t.None? || |t.value.rows| == 0 || PgnCol !in t.value.columns
      || CountWhere(t.value.rows, PgnPresent) == 0
    ensures r.Some? ==>
      var pairs := ExtractPairs(t.value.rows);
      && |pairs| == CountWhere(t.value.rows, PgnPresent)
      && ViewOf(r.value, pairs)
  {
    if t.None? || |t.value.rows| == 0 || PgnCol !in t.value.columns then None
    else
      var pairs := ExtractPairs(t.value.rows);
      IndicesCount(t.value.rows, PgnPresent);
      if pairs == [] then None
      else
        BuildViewFacts(pairs);
        Some(BuildView(pairs))
  }

  /** `v` shows the label pairs `pairs`: one rectangle per distinct (opening,
      variation) pair sized by its games, and the games per opening, most played
      first, adding up to all the pairs. */
  ghost predicate ViewOf(v: TreeView, pairs: seq<(string, string)>) {
    && (forall j :: 0 <= j < |v.nodes| ==>
          var n := v.nodes[j];
          && n.id == n.parent + " - " + n.name
          && n.value >= 1
          && n.value == CountKey(pairs, PairId, (n.parent, n.name)))
    && (forall p :: CountKey(pairs, PairId, p) > 0 <==>
          exists j :: 0 <= j < |v.nodes| && (v.nodes[j].parent, v.nodes[j].name) == p)
    && OpeningExplorer.NodeTotal(v.nodes) == |pairs|
    && NonIncreasing(v.openingCounts) && DistinctKeys(v.openingCounts)
    && (forall k :: KeyTotal(v.openingCounts, k) == CountKey(pairs, FirstOf, k))
    && (forall k :: k in KeySet(v.openingCounts) <==> CountKey(pairs, FirstOf, k) > 0)
    && Total(v.openingCounts) == |pairs|
  }

  function BuildView(pairs: seq<(string, string)>): TreeView {
    TreeView(OpeningExplorer.TreeNodes(pairs, PairId), SortDesc(Tally(pairs, FirstOf)))
  }

  lemma BuildViewFacts(pairs: seq<(string, string)>)
    ensures ViewOf(BuildView(pairs), pairs)
  {
  }

  /** A game counts toward the "Unknown" opening exactly when its PGN text has no
      `Opening` tag; the sentinel is not the explorer's "Unknown Opening". */
  lemma UntaggedIsUnknown(pgn: string)
    ensures TreeLabels(pgn).0 == UnknownLabel <==> !HasTag(pgn, OpeningTag) || Search(pgn, OpeningTag) == Some(UnknownLabel)
  {
  }
}
