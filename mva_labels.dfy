/**
 * The cell helpers and the fuzzy label lookup of the attendance-sheet reader.
 *
 * A sheet is a grid of cells that are already text (the reader fills empty
 * cells with "" and stringifies everything before scanning).
 */
module MvaLabels {

  import opened Wrappers
  import opened Text
  import opened Search

  type Row = seq<string>
  type Grid = seq<Row>

  function Min(a: int, b: int): int
  {
    if a < b then a else b
  }

  /** `to_clean_str` of a cell that is already text: the cell stripped. */
  function CleanStr(x: string): string
  {
    Trim(x)
  }

  /** A cleaned cell has no surrounding whitespace, and cleaning it again changes nothing. */
  lemma CleanStrClean(x: string)
    ensures CleanStr(CleanStr(x)) == CleanStr(x)
    ensures CleanStr(x) != "" ==> !IsSpace(CleanStr(x)[0]) && !IsSpace(CleanStr(x)[|CleanStr(x)| - 1])
  {
    TrimIdempotent(x);
  }

  /** Some keyword, lower-cased, occurs in `text`; the keywords are tried in order. */
  predicate AnyKeyword(text: string, keywords: seq<string>)
    decreases |keywords|
  {
    |keywords| > 0 && (Contains(text, Lower(keywords[0])) || AnyKeyword(text, keywords[1..]))
  }

  /** `AnyKeyword` holds exactly when one of the keywords occurs. */
  lemma {:induction false} AnyKeywordIff(text: string, keywords: seq<string>)
    ensures AnyKeyword(text, keywords) <==> exists t :: 0 <= t < |keywords| && Contains(text, Lower(keywords[t]))
    decreases |keywords|
  {
    if |keywords| > 0 {
      AnyKeywordIff(text, keywords[1..]);
      if AnyKeyword(text, keywords[1..]) {
        var t :| 0 <= t < |keywords| - 1 && Contains(text, Lower(keywords[1..][t]));
        assert Contains(text, Lower(keywords[t + 1]));
      }
      if exists t :: 0 <= t < |keywords| && Contains(text, Lower(keywords[t])) {
        var t :| 0 <= t < |keywords| && Contains(text, Lower(keywords[t]));
        if t > 0 {
          assert keywords[t] == keywords[1..][t - 1];
        }
      }
    }
  }

  /** The cleaned, lower-cased cell contains one of the keywords, lower-cased. */
  predicate CellMatches(cell: string, keywords: seq<string>)
  {
    AnyKeyword(Lower(CleanStr(cell)), keywords)
  }

  /** The keyword test as a function of the cell. */
  function MatchTest(keywords: seq<string>): string -> bool
  {
    cell => CellMatches(cell, keywords)
  }

  /** A cell that is not empty once cleaned. */
  predicate NonEmptyCell(cell: string)
  {
    CleanStr(cell) != ""
  }

  /** The first non-empty cleaned cell among columns lo .. hi-1, else "". */
  function Window(row: Row, lo: nat, hi: int): string
    requires hi <= |row|
  {
    match FirstWhere(row, NonEmptyCell, lo, hi)
    case None => ""
    case Some(k) => CleanStr(row[k])
  }

  /**
   * The window value is "" exactly when every cell of the window cleans to "";
   * otherwise it is the cleaned cell of the first column that does not.
   */
  lemma WindowSpec(row: Row, lo: nat, hi: int)
    requires hi <= |row|
    ensures Window(row, lo, hi) == "" <==> forall k :: lo <= k < hi ==> CleanStr(row[k]) == ""
    ensures Window(row, lo, hi) != "" ==>
      exists k :: lo <= k < hi && Window(row, lo, hi) == CleanStr(row[k])
                  && forall i :: lo <= i < k ==> CleanStr(row[i]) == ""
  {
    FirstWhereSpec(row, NonEmptyCell, lo, hi);
  }

  /**
   * `find_label_value(row, keywords, lookahead)`: the first non-empty cleaned
   * cell at most `lookahead` columns right of the FIRST matching cell, else "".
   */
  function LabelValue(row: Row, keywords: seq<string>, lookahead: int): string
  {
    match FirstWhere(row, MatchTest(keywords), 0, |row|)
    case None => ""
    case Some(j) => Window(row, j + 1, Min(j + 1 + lookahead, |row|))
  }

  /** No matching cell: the lookup gives "". */
  lemma LabelValueNoMatch(row: Row, keywords: seq<string>, lookahead: int)
    requires forall j :: 0 <= j < |row| ==> !CellMatches(row[j], keywords)
    ensures LabelValue(row, keywords, lookahead) == ""
  {
    assert forall j :: 0 <= j < |row| ==> !MatchTest(keywords)(row[j]);
    FirstWhereSpec(row, MatchTest(keywords), 0, |row|);
  }

  /**
   * With j the first matching cell, the lookup is the window of the `lookahead`
   * columns right of j: a later matching cell is never tried, even when that
   * window is all empty.
   */
  lemma LabelValueAtFirstMatch(row: Row, keywords: seq<string>, lookahead: int, j: nat)
    requires j < |row| && CellMatches(row[j], keywords)
    requires forall i :: 0 <= i < j ==> !CellMatches(row[i], keywords)
    ensures LabelValue(row, keywords, lookahead) == Window(row, j + 1, Min(j + 1 + lookahead, |row|))
  {
    var p := MatchTest(keywords);
    FirstWhereSpec(row, p, 0, |row|);
    assert p(row[j]);
    assert forall i :: 0 <= i < j ==> !p(row[i]);
    assert FirstWhere(row, p, 0, |row|) == Some(j);
  }

  /** The keyword loop for one cell of `find_label_value`. */
  method MatchesKeyword(cell: string, keywords: seq<string>) returns (found: bool)
    ensures found == CellMatches(cell, keywords)
  {
    var low := Lower(CleanStr(cell));
    var t := 0;
    while t < |keywords|
      invariant 0 <= t <= |keywords|
      invariant AnyKeyword(low, keywords[t..]) == AnyKeyword(low, keywords)
    {
      assert keywords[t..][1..] == keywords[t + 1..];
      if Contains(low, Lower(keywords[t])) {
        return true;
      }
      t := t + 1;
    }
    return false;
  }

  /** The window loop of `find_label_value`. */
  method WindowValue(row: Row, lo: nat, hi: int) returns (r: string)
    requires hi <= |row|
    ensures r == Window(row, lo, hi)
  {
    var k := lo;
    while k < hi
      invariant lo <= k
      invariant FirstWhere(row, NonEmptyCell, k, hi) == FirstWhere(row, NonEmptyCell, lo, hi)
    {
      var val := CleanStr(row[k]);
      if val != "" {
        return val;
      }
      k := k + 1;
    }
    return "";
  }

  /** `find_label_value`: a nested search over cells and keywords with early return. */
  method FindLabelValue(row: Row, keywords: seq<string>, lookahead: int := 6) returns (r: string)
    ensures r == LabelValue(row, keywords, lookahead)
  {
    var j := 0;
    ghost var p := MatchTest(keywords);
    while j < |row|
      invariant 0 <= j <= |row|
      invariant FirstWhere(row, p, j, |row|) == FirstWhere(row, p, 0, |row|)
    {
      var found := MatchesKeyword(row[j], keywords);
      assert p(row[j]) == found;
      if found {
        r := WindowValue(row, j + 1, Min(j + 1 + lookahead, |row|));
        return;
      }
      j := j + 1;
    }
    return "";
  }
}
