/** `components/filters.py`: `apply_filters`, the row selection of the sidebar.
    The widgets of `create_filters` are not modelled; the choices they return are
    the input `FilterSpec`. */
module Filters {
  import opened Base
  import opened Games
  import Seqs

  const Both: string := "Both"
  const White: string := "White"

  /** The filter choices. An empty range is a falsy one (`None` or `()`); a
      non-empty range is read at indices 0 and 1. */
  datatype FilterSpec = FilterSpec(dateRange: seq<int>, ratingRange: seq<real>, side: string)

  /** The date mask: a missing date passes, otherwise the day lies in the inclusive range. */
  predicate DateOk(f: FilterSpec, g: Game) {
    |f.dateRange| == 0 ||
    (|f.dateRange| >= 2 && (g.date.None? || f.dateRange[0] <= g.date.value <= f.dateRange[1]))
  }

  /** The rating mask: a missing `New Rating` passes, otherwise `between` (inclusive). */
  predicate RatingOk(f: FilterSpec, g: Game) {
    |f.ratingRange| == 0 ||
    (|f.ratingRange| >= 2 && (g.newRating.None? || f.ratingRange[0] <= g.newRating.value <= f.ratingRange[1]))
  }

  /** The side mask: "Both" keeps everything, "White" the W/WHITE spellings, any
      other choice the B/BLACK spellings, in any case; a missing side never matches. */
  predicate SideOk(f: FilterSpec, g: Game) {
    f.side == Both || (if f.side == White then IsWhite(g.side) else IsBlack(g.side))
  }

  function DateMask(f: FilterSpec): Game -> bool { g => DateOk(f, g) }
  function RatingMask(f: FilterSpec): Game -> bool { g => RatingOk(f, g) }
  function SideMask(f: FilterSpec): Game -> bool { g => SideOk(f, g) }
  function DateRatingMask(f: FilterSpec): Game -> bool { g => DateOk(f, g) && RatingOk(f, g) }

  /** A row survives when it passes every active mask. */
  predicate Passes(f: FilterSpec, g: Game) {
    DateOk(f, g) && RatingOk(f, g) && SideOk(f, g)
  }
  function PassMask(f: FilterSpec): Game -> bool { g => Passes(f, g) }

  /** The error `apply_filters` raises, if any: a missing column for an active mask
      (`KeyError`), or a non-empty range with fewer than two bounds (`IndexError`),
      in the order the masks are built. */
  function FilterError(columns: set<string>, f: FilterSpec): Option<Error> {
    if |f.dateRange| > 0 && DateCol !in columns then Some(KeyError(DateCol))
    else if |f.dateRange| == 1 then Some(IndexError)
    else if |f.ratingRange| > 0 && NewRatingCol !in columns then Some(KeyError(NewRatingCol))
    else if |f.ratingRange| == 1 then Some(IndexError)
    else if f.side != Both && SideCol !in columns then Some(KeyError(SideCol))
    else None
  }

  /** `apply_filters(df, filters)`: the masks applied one after another. */
  function ApplyFilters(t: Table, f: FilterSpec): (r: Outcome<Table>)
    ensures r.Raised? <==> FilterError(t.columns, f).Some?
    ensures r.Raised? ==> r.error == FilterError(t.columns, f).value
    ensures r.Ok? ==> r.value.columns == t.columns
    ensures r.Ok? ==> r.value.rows == Seqs.Filter(t.rows, PassMask(f))
  {
    if FilterError(t.columns, f).Some? then Raised(FilterError(t.columns, f).value)
    else
      var afterDate := if |f.dateRange| > 0 then Seqs.Filter(t.rows, DateMask(f)) else t.rows;
      var afterRating := if |f.ratingRange| > 0 then Seqs.Filter(afterDate, RatingMask(f)) else afterDate;
      var afterSide := if f.side != Both then Seqs.Filter(afterRating, SideMask(f)) else afterRating;
      SequentialIsConjunction(t.rows, f);
      Ok(Table(t.columns, afterSide))
  }

  /** Applying the active masks in turn keeps exactly the rows that pass all of them. */
  lemma SequentialIsConjunction(rows: seq<Game>, f: FilterSpec)
    ensures var afterDate := if |f.dateRange| > 0 then Seqs.Filter(rows, DateMask(f)) else rows;
      var afterRating := if |f.ratingRange| > 0 then Seqs.Filter(afterDate, RatingMask(f)) else afterDate;
      var afterSide := if f.side != Both then Seqs.Filter(afterRating, SideMask(f)) else afterRating;
      afterSide == Seqs.Filter(rows, PassMask(f))
  {
    var d := Seqs.Filter(rows, DateMask(f));
    if |f.dateRange| == 0 { Seqs.FilterAll(rows, DateMask(f)); }
    var dr := Seqs.Filter(d, RatingMask(f));
    if |f.ratingRange| == 0 { Seqs.FilterAll(d, RatingMask(f)); }
    if f.side == Both { Seqs.FilterAll(dr, SideMask(f)); }
    Seqs.FilterFilter(rows, DateMask(f), RatingMask(f), DateRatingMask(f));
    Seqs.FilterFilter(rows, DateRatingMask(f), SideMask(f), PassMask(f));
  }

  /** The filtered rows are input rows, unchanged and in order, and a row is kept
      exactly when it passes every mask. */
  lemma FilteredRows(t: Table, f: FilterSpec)
    requires FilterError(t.columns, f).None?
    ensures var r := ApplyFilters(t, f).value.rows;
      && (forall g :: g in r <==> g in t.rows && Passes(f, g))
      && |r| <= |t.rows|
  {
    Seqs.FilterMembers(t.rows, PassMask(f));
  }

  /** With no range chosen and side "Both" nothing is filtered out. */
  lemma NoFilterKeepsAll(t: Table)
    ensures ApplyFilters(t, FilterSpec([], [], Both)) == Ok(t)
  {
    Seqs.FilterAll(t.rows, PassMask(FilterSpec([], [], Both)));
  }

  /** Rows with neither date nor rating pass any well-formed pair of ranges. */
  lemma MissingValuesPass(f: FilterSpec, g: Game)
    requires |f.dateRange| != 1 && |f.ratingRange| != 1
    requires g.date.None? && g.newRating.None?
    ensures DateOk(f, g) && RatingOk(f, g)
  {
  }
}
