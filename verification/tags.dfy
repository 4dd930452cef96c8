/** The PGN tag search every opening extractor of the dashboard performs:
    `re.search(r'\[Name\s+"([^"]+)"\]', pgn).group(1)` for `Name` in
    `Opening` and `Variation`. */
module Tags {
  import opened Base
  import Text

  const OpeningTag: string := "Opening"
  const VariationTag: string := "Variation"

  /** The literal that starts a tag, e.g. `[Opening`. */
  function Opener(name: string): string {
    "[" + name
  }

  /** The pattern matches at position `i` of `s`, with its opening quote at `q` and
      its closing quote at `e`: `[` and `name`, one or more whitespace characters up
      to `q`, a non-empty run of non-quote characters, then `"]`. The capture is
      `s[q + 1..e]`. */
  ghost predicate TagAt(s: string, name: string, i: int, q: int, e: int) {
    && 0 <= i && i + |name| + 1 < q && q + 1 < e && e + 1 < |s|
    && s[i..i + |name| + 1] == Opener(name)
    && (forall m :: i + |name| + 1 <= m < q ==> Text.IsSpace(s[m]))
    && s[q] == '"'
    && (forall m :: q < m < e ==> s[m] != '"')
    && s[e] == '"' && s[e + 1] == ']'
  }

  /** Some position of `s` matches the pattern. */
  ghost predicate HasTag(s: string, name: string) {
    exists i, q, e :: TagAt(s, name, i, q, e)
  }

  /** The match at `i` is the leftmost one, the one `re.search` reports. */
  ghost predicate LeftmostTag(s: string, name: string, i: int, q: int, e: int) {
    TagAt(s, name, i, q, e) && forall i', q', e' :: i' < i ==> !TagAt(s, name, i', q', e')
  }

  /** End of the whitespace run starting at `i`. */
  function SkipSpace(s: string, i: nat): (j: nat)
    requires i <= |s|
    ensures i <= j <= |s|
    ensures forall m :: i <= m < j ==> Text.IsSpace(s[m])
    ensures j < |s| ==> !Text.IsSpace(s[j])
    decreases |s| - i
  {
    if i < |s| && Text.IsSpace(s[i]) then SkipSpace(s, i + 1) else i
  }

  /** Position of the first quote at or after `i`, or `|s|` when there is none. */
  function SkipToQuote(s: string, i: nat): (j: nat)
    requires i <= |s|
    ensures i <= j <= |s|
    ensures forall m :: i <= m < j ==> s[m] != '"'
    ensures j < |s| ==> s[j] == '"'
    decreases |s| - i
  {
    if i < |s| && s[i] != '"' then SkipToQuote(s, i + 1) else i
  }

  /** The capture of the pattern anchored at position `i`, if it matches there.
      Both repeated parts are greedy and followed by a character they cannot
      consume, so backtracking never finds another match: the match is unique. */
  function MatchAt(s: string, name: string, i: nat): (r: Option<string>)
    requires i <= |s|
    ensures r.Some? ==> exists q, e :: TagAt(s, name, i, q, e) && r.value == s[q + 1..e]
    ensures forall q, e :: TagAt(s, name, i, q, e) ==> r == Some(s[q + 1..e])
  {
    var o := Opener(name);
    if |s| - i < |o| || s[i..i + |o|] != o then None
    else
      var q := SkipSpace(s, i + |o|);
      if q == i + |o| || q == |s| || s[q] != '"' then None
      else
        var e := SkipToQuote(s, q + 1);
        if e == q + 1 || e + 1 >= |s| || s[e + 1] != ']' then None
        else
          assert TagAt(s, name, i, q, e);
          Some(s[q + 1..e])
  }

  /** The leftmost match at or after `i`. */
  function SearchFrom(s: string, name: string, i: nat): (r: Option<string>)
    requires i <= |s|
    ensures r.None? ==> forall j, q, e :: i <= j ==> !TagAt(s, name, j, q, e)
    ensures r.Some? ==> exists j, q, e ::
      (&& i <= j && TagAt(s, name, j, q, e)
       && r.value == s[q + 1..e]
       && forall j', q', e' :: i <= j' < j ==> !TagAt(s, name, j', q', e'))
    decreases |s| - i
  {
    if i == |s| then None
    else
      match MatchAt(s, name, i)
      case Some(v) => Some(v)
      case None => SearchFrom(s, name, i + 1)
  }

  /** `re.search(...)`: the capture of the leftmost match, or `None` when nothing matches. */
  function Search(s: string, name: string): (r: Option<string>)
    ensures r.None? <==> !HasTag(s, name)
    ensures r.Some? ==> exists i, q, e :: LeftmostTag(s, name, i, q, e) && r.value == s[q + 1..e]
    ensures r.Some? ==> r.value != [] && '"' !in r.value
  {
    SearchFromStart(s, name);
    SearchFrom(s, name, 0)
  }

  /** The search from position 0 finds the leftmost match, whose capture is a
      non-empty quote-free slice. */
  lemma SearchFromStart(s: string, name: string)
    ensures var r := SearchFrom(s, name, 0);
      && (r.None? <==> !HasTag(s, name))
      && (r.Some? ==> exists i, q, e :: LeftmostTag(s, name, i, q, e) && r.value == s[q + 1..e])
      && (r.Some? ==> r.value != [] && '"' !in r.value)
  {
    var r := SearchFrom(s, name, 0);
    if r.Some? {
      var i, q, e :| 0 <= i && TagAt(s, name, i, q, e) && r.value == s[q + 1..e]
        && forall j', q', e' :: 0 <= j' < i ==> !TagAt(s, name, j', q', e');
      assert LeftmostTag(s, name, i, q, e);
      assert forall m :: 0 <= m < |r.value| ==> r.value[m] == s[q + 1 + m];
    }
  }

  /** At a given position the pattern matches in at most one way. */
  lemma TagDeterministic(s: string, name: string, i: int, q: int, e: int, q': int, e': int)
    requires TagAt(s, name, i, q, e) && TagAt(s, name, i, q', e')
    ensures q == q' && e == e'
  {
  }

  /** Where the pattern does not match, `MatchAt` finds nothing. */
  lemma NoMatchAt(s: string, name: string, j: nat)
    requires j <= |s|
    requires forall q, e :: !TagAt(s, name, j, q, e)
    ensures MatchAt(s, name, j).None?
  {
  }

  /** Scanning from `start` reaches the first match at or after it. */
  lemma {:induction false} SearchFromFinds(s: string, name: string, start: nat, i: int, q: int, e: int)
    requires start <= i && TagAt(s, name, i, q, e)
    requires forall j', q', e' :: start <= j' < i ==> !TagAt(s, name, j', q', e')
    ensures SearchFrom(s, name, start) == Some(s[q + 1..e])
    decreases i - start
  {
    if start < i {
      NoMatchAt(s, name, start);
      SearchFromFinds(s, name, start + 1, i, q, e);
    }
  }

  /** `Search` succeeds with `v` exactly when `v` is the capture of the leftmost match. */
  lemma SearchExact(s: string, name: string, i: int, q: int, e: int)
    requires LeftmostTag(s, name, i, q, e)
    ensures Search(s, name) == Some(s[q + 1..e])
  {
    SearchFromFinds(s, name, 0, i, q, e);
  }

  /** `m.group(1) if m else default` for `m = re.search(...)`. */
  function CaptureOr(s: string, name: string, default: string): (r: string)
    ensures !HasTag(s, name) ==> r == default
    ensures forall i, q, e :: LeftmostTag(s, name, i, q, e) ==> r == s[q + 1..e]
  {
    forall i, q, e | LeftmostTag(s, name, i, q, e) ensures Search(s, name) == Some(s[q + 1..e]) {
      SearchExact(s, name, i, q, e);
    }
    match Search(s, name)
    case Some(v) => v
    case None => default
  }
}
