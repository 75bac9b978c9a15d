/**
 * The staff-shift sheet importer: a shift cell read as a list of intervals,
 * the deterministic shift code of such a list, and the row loop that walks
 * the sheet's department and employee rows, creating each shift pattern
 * once and upserting every employee with its default shift.
 */
module ShiftImporter {

  import opened Wrappers
  import opened Text
  import opened Numerals
  import opened Search
  import opened MongoHelpers

  // ---------------------------------------------------------------------
  // The interval pattern `(\d{1,2}:\d{2})\s*(?:to|[-–])\s*(\d{1,2}:\d{2})`

  /** A clock text: one or two digits, a colon and two digits. */
  predicate IsClock(t: string)
  {
    || (|t| == 5 && IsDigit(t[0]) && IsDigit(t[1]) && t[2] == ':' && IsDigit(t[3]) && IsDigit(t[4]))
    || (|t| == 4 && IsDigit(t[0]) && t[1] == ':' && IsDigit(t[2]) && IsDigit(t[3]))
  }

  /**
   * The length of the clock text the pattern's group takes at i: the two-digit
   * hour is tried first, then the one-digit hour; 0 when neither matches.
   */
  function ClockAt(p: string, i: nat): (n: nat)
    ensures n > 0 ==> i + n <= |p|
  {
    if i + 5 <= |p| && IsDigit(p[i]) && IsDigit(p[i + 1]) && p[i + 2] == ':' && IsDigit(p[i + 3]) && IsDigit(p[i + 4])
    then 5
    else if i + 4 <= |p| && IsDigit(p[i]) && p[i + 1] == ':' && IsDigit(p[i + 2]) && IsDigit(p[i + 3])
    then 4
    else 0
  }

  /** What the group takes at i is a clock text: `\d{1,2}:\d{2}`. */
  lemma ClockAtSpec(p: string, i: nat)
    ensures var n := ClockAt(p, i); n == 0 || (i + n <= |p| && IsClock(p[i..i + n]))
  {
  }

  /** The first index from j on that is not whitespace (`\s*`, greedy). */
  function SkipSpaces(p: string, j: nat): (r: nat)
    requires j <= |p|
    ensures j <= r <= |p|
    decreases |p| - j
  {
    if j < |p| && IsSpace(p[j]) then SkipSpaces(p, j + 1) else j
  }

  /** `\s*` takes only whitespace and stops at the first character that is not. */
  lemma {:induction false} SkipSpacesSpec(p: string, j: nat)
    requires j <= |p|
    ensures var r := SkipSpaces(p, j);
      && (r < |p| ==> !IsSpace(p[r]))
      && forall k :: j <= k < r ==> IsSpace(p[k])
    decreases |p| - j
  {
    if j < |p| && IsSpace(p[j]) {
      SkipSpacesSpec(p, j + 1);
    }
  }

  /** The length of the separator at j: "to" in any case, a hyphen or an en dash; 0 for none. */
  function SeparatorAt(p: string, j: nat): nat
  {
    if j + 2 <= |p| && LowerChar(p[j]) == 't' && LowerChar(p[j + 1]) == 'o' then 2
    else if j < |p| && (p[j] == '-' || p[j] == '\U{2013}') then 1
    else 0
  }

  /**
   * The two groups of a match of the pattern starting at i. Because a
   * shorter run of spaces leaves a space where the separator or a digit must
   * come, the greedy reading is the only one that can succeed.
   */
  function MatchAt(p: string, i: nat): Option<(string, string)>
  {
    var a := ClockAt(p, i);
    if a == 0 then None
    else
      var j := SkipSpaces(p, i + a);
      var sep := SeparatorAt(p, j);
      if sep == 0 then None
      else
        var k := SkipSpaces(p, j + sep);
        var b := ClockAt(p, k);
        if b == 0 then None else Some((p[i..i + a], p[k..k + b]))
  }

  /** The match, if any, that starts at each position of p. */
  function Matches(p: string): (r: seq<Option<(string, string)>>)
    ensures |r| == |p|
  {
    seq(|p|, j requires 0 <= j < |p| => MatchAt(p, j))
  }

  /** `re.search`: the first start position where the pattern matches. */
  function SearchMatch(p: string): (r: Option<nat>)
    ensures r.Some? ==> r.value < |p| && MatchAt(p, r.value).Some?
  {
    FirstWhere(Matches(p), (m: Option<(string, string)>) => m.Some?, 0, |p|)
  }

  /** The search finds the leftmost match, and None only when no position matches. */
  lemma SearchSpec(p: string)
    ensures var r := SearchMatch(p);
      && (r.Some? ==> forall j :: 0 <= j < r.value ==> Matches(p)[j].None?)
      && (r.None? ==> forall j :: 0 <= j < |p| ==> Matches(p)[j].None?)
  {
    FirstWhereSpec(Matches(p), (m: Option<(string, string)>) => m.Some?, 0, |p|);
  }

  /** Both groups of a match are clock texts, the first one read at the match's start. */
  lemma MatchShape(p: string, i: nat)
    requires MatchAt(p, i).Some?
    ensures var (a, b) := MatchAt(p, i).value;
      IsClock(a) && IsClock(b) && i + |a| <= |p| && p[i..i + |a|] == a
  {
    var a := ClockAt(p, i);
    var j := SkipSpaces(p, i + a);
    ClockAtSpec(p, i);
    ClockAtSpec(p, SkipSpaces(p, j + SeparatorAt(p, j)));
  }

  /** The separator texts the pattern accepts between its clocks: "to" in any case, a hyphen or an en dash. */
  predicate IsSeparatorText(t: string)
  {
    t == "-" || t == "\U{2013}" || (|t| == 2 && LowerChar(t[0]) == 't' && LowerChar(t[1]) == 'o')
  }

  /** A run of whitespace, possibly empty. */
  predicate AllSpace(t: string)
  {
    forall k :: 0 <= k < |t| ==> IsSpace(t[k])
  }

  /** `\s*` at j takes exactly a run of n spaces that is followed by no further space. */
  lemma {:induction false} SkipSpacesRun(p: string, j: nat, n: nat)
    requires j + n <= |p| && AllSpace(p[j..j + n])
    requires j + n < |p| ==> !IsSpace(p[j + n])
    ensures SkipSpaces(p, j) == j + n
    decreases n
  {
    if n > 0 {
      assert p[j] == p[j..j + n][0];
      assert p[j + 1..j + n] == p[j..j + n][1..];
      SkipSpacesRun(p, j + 1, n - 1);
    }
  }

  /** Where a clock text stands at i, the group at i takes all of it. */
  lemma ClockHere(p: string, i: nat, t: string)
    requires IsClock(t) && i + |t| <= |p| && p[i..i + |t|] == t
    ensures ClockAt(p, i) == |t| && !IsSpace(p[i])
  {
    assert p[i] == t[0] && p[i + 1] == t[1] && p[i + 2] == t[2] && p[i + 3] == t[3];
    if |t| == 5 {
      assert p[i + 4] == t[4];
    }
  }

  /** Where a separator text stands at j, the separator at j takes all of it. */
  lemma SeparatorHere(p: string, j: nat, sep: string)
    requires IsSeparatorText(sep) && j + |sep| <= |p| && p[j..j + |sep|] == sep
    ensures SeparatorAt(p, j) == |sep| && !IsSpace(p[j])
  {
    assert p[j] == sep[0];
    if |sep| == 2 {
      assert p[j + 1] == sep[1];
    }
  }

  /**
   * Two clock texts around a separator, with any whitespace on either side of
   * it ("09:00 to 18:00", "07:00-13:00", "14:00 – 23:00", "9:00TO17:30"),
   * match at the start with the two clocks as groups.
   */
  lemma MatchSeparated(a: string, sp1: string, sep: string, sp2: string, b: string)
    requires IsClock(a) && IsClock(b) && AllSpace(sp1) && AllSpace(sp2) && IsSeparatorText(sep)
    ensures MatchAt(a + sp1 + sep + sp2 + b, 0) == Some((a, b))
  {
    FiveSlices(a, sp1, sep, sp2, b);
    MatchPieces(a + sp1 + sep + sp2 + b, a, sp1, sep, sp2, b);
  }

  /** The match of a text laid out as clock, spaces, separator, spaces, clock. */
  lemma MatchPieces(p: string, a: string, sp1: string, sep: string, sp2: string, b: string)
    requires IsClock(a) && IsClock(b) && AllSpace(sp1) && AllSpace(sp2) && IsSeparatorText(sep)
    requires |p| == |a| + |sp1| + |sep| + |sp2| + |b|
    requires p[0..|a|] == a && p[|a|..|a| + |sp1|] == sp1 && p[|a| + |sp1|..|a| + |sp1| + |sep|] == sep
    requires p[|a| + |sp1| + |sep|..|a| + |sp1| + |sep| + |sp2|] == sp2
    requires p[|a| + |sp1| + |sep| + |sp2|..|a| + |sp1| + |sep| + |sp2| + |b|] == b
    ensures MatchAt(p, 0) == Some((a, b))
  {
    LeftPieces(p, a, sp1, sep);
    RightPieces(p, |a| + |sp1| + |sep|, sp2, b);
    MatchSteps(p, |a|, |a| + |sp1|, |sep|, |a| + |sp1| + |sep| + |sp2|, a, b);
  }

  /** The clock group, the spaces after it and the separator at the front of a laid-out text. */
  lemma LeftPieces(p: string, a: string, sp1: string, sep: string)
    requires IsClock(a) && AllSpace(sp1) && IsSeparatorText(sep)
    requires |a| + |sp1| + |sep| <= |p|
    requires p[0..|a|] == a && p[|a|..|a| + |sp1|] == sp1 && p[|a| + |sp1|..|a| + |sp1| + |sep|] == sep
    ensures ClockAt(p, 0) == |a| > 0 && SkipSpaces(p, |a|) == |a| + |sp1|
    ensures SeparatorAt(p, |a| + |sp1|) == |sep| > 0
  {
    ClockHere(p, 0, a);
    SeparatorHere(p, |a| + |sp1|, sep);
    SkipSpacesRun(p, |a|, |sp1|);
  }

  /** The spaces from i3 on and the clock group after them, at the end of a laid-out text. */
  lemma RightPieces(p: string, i3: nat, sp2: string, b: string)
    requires IsClock(b) && AllSpace(sp2)
    requires |p| == i3 + |sp2| + |b| && p[i3..i3 + |sp2|] == sp2 && p[i3 + |sp2|..i3 + |sp2| + |b|] == b
    ensures SkipSpaces(p, i3) == i3 + |sp2| && ClockAt(p, i3 + |sp2|) == |b| > 0
  {
    ClockHere(p, i3 + |sp2|, b);
    SkipSpacesRun(p, i3, |sp2|);
  }

  /** The five pieces of a concatenation, each found at its offset. */
  lemma FiveSlices(a: string, b: string, c: string, d: string, e: string)
    ensures var p := a + b + c + d + e;
      && |p| == |a| + |b| + |c| + |d| + |e|
      && p[0..|a|] == a && p[|a|..|a| + |b|] == b && p[|a| + |b|..|a| + |b| + |c|] == c
      && p[|a| + |b| + |c|..|a| + |b| + |c| + |d|] == d
      && p[|a| + |b| + |c| + |d|..|a| + |b| + |c| + |d| + |e|] == e
  {
  }

  /** A match at the start assembled from its steps: clock, spaces, separator, spaces, clock. */
  lemma MatchSteps(p: string, n: nat, j: nat, m: nat, k: nat, a: string, b: string)
    requires n > 0 && ClockAt(p, 0) == n && SkipSpaces(p, n) == j
    requires m > 0 && SeparatorAt(p, j) == m && SkipSpaces(p, j + m) == k
    requires ClockAt(p, k) == |b| > 0
    requires p[0..n] == a && p[k..k + |b|] == b
    ensures MatchAt(p, 0) == Some((a, b))
  {
  }

  /** A clock text, a hyphen and a clock text match at the start with the two clocks as groups. */
  lemma MatchClocks(a: string, b: string)
    requires IsClock(a) && IsClock(b)
    ensures MatchAt(a + "-" + b, 0) == Some((a, b))
  {
    MatchSeparated(a, "", "-", "", b);
    assert a + "" + "-" + "" + b == a + "-" + b;
  }

  // ---------------------------------------------------------------------
  // `parse_shift_cell`

  /** The uppercase cell texts that mean "no shift". */
  const OffWords: set<string> := {"OFF", "WO", "W/O", "HOL", "--", "-"}

  /** The characters a cell is split on. */
  const PartSeparators: set<char> := {';', ',', '/'}

  /** The interval one part of a cell gives: the groups of the pattern's first match in the stripped part. */
  function PartInterval(part: string): Option<Interval>
  {
    var p := Trim(part);
    match SearchMatch(p)
    case None => None
    case Some(i) => Some(Interval(MatchAt(p, i).value.0, MatchAt(p, i).value.1))
  }

  /** Every interval a part gives holds two clock texts. */
  lemma PartIntervalShape(part: string)
    ensures var r := PartInterval(part); r.Some? ==> IsClock(r.value.start) && IsClock(r.value.end)
  {
    var p := Trim(part);
    if SearchMatch(p).Some? {
      MatchShape(p, SearchMatch(p).value);
    }
  }

  /** The intervals among the first n per-part results, in part order. */
  function Collect(rs: seq<Option<Interval>>, n: nat): (r: seq<Interval>)
    requires n <= |rs|
    ensures |r| <= n
  {
    if n == 0 then []
    else Collect(rs, n - 1) + match rs[n - 1] case None => [] case Some(iv) => [iv]
  }

  /** Whether a stripped cell says there is no shift. */
  predicate IsOffCell(s: string)
  {
    s == "" || Upper(s) in OffWords
  }

  /** The parts of a cell that is not an off-cell. */
  function CellParts(cell: string): seq<string>
  {
    SplitAny(Trim(cell), PartSeparators)
  }

  /** The intervals of a shift cell; no cell, an empty one and an off-word give none. */
  function CellIntervals(cell: Option<string>): seq<Interval>
  {
    if cell.None? || IsOffCell(Trim(cell.value)) then []
    else var parts := CellParts(cell.value); Collect(Mapped(parts, PartInterval), |parts|)
  }

  /** When every result is a pair of clock texts, so is every collected interval. */
  lemma {:induction false} CollectShape(rs: seq<Option<Interval>>, n: nat)
    requires n <= |rs|
    requires forall k :: 0 <= k < n && rs[k].Some? ==> IsClock(rs[k].value.start) && IsClock(rs[k].value.end)
    ensures forall k :: 0 <= k < |Collect(rs, n)| ==> IsClock(Collect(rs, n)[k].start) && IsClock(Collect(rs, n)[k].end)
  {
    if n > 0 {
      CollectShape(rs, n - 1);
    }
  }

  /**
   * A cell never gives more intervals than it has separator-delimited parts,
   * and every interval is a pair of clock texts.
   */
  lemma CellIntervalsSpec(cell: string)
    ensures var ivs := CellIntervals(Some(cell));
      && |ivs| <= CountIn(Trim(cell), PartSeparators) + 1
      && forall k :: 0 <= k < |ivs| ==> IsClock(ivs[k].start) && IsClock(ivs[k].end)
  {
    if !IsOffCell(Trim(cell)) {
      var parts := CellParts(cell);
      var rs := Mapped(parts, PartInterval);
      SplitAnyPieces(Trim(cell), PartSeparators);
      forall k | 0 <= k < |parts| && rs[k].Some?
        ensures IsClock(rs[k].value.start) && IsClock(rs[k].value.end)
      {
        MappedAt(parts, PartInterval, k);
        PartIntervalShape(parts[k]);
      }
      CollectShape(rs, |parts|);
    }
  }

  /** `Collect` keeps the present results among the first n, in order. */
  lemma {:induction false} CollectPresent(rs: seq<Option<Interval>>, n: nat)
    requires n <= |rs|
    ensures Collect(rs, n) == Present(rs[..n])
  {
    if n > 0 {
      CollectPresent(rs, n - 1);
      assert rs[..n] == rs[..n - 1] + [rs[n - 1]];
      PresentAppend(rs[..n - 1], rs[n - 1]);
    }
  }

  /**
   * The intervals of a cell that is not an off-cell are those of its parts,
   * in part order; a part without a match is dropped, and an interval occurs
   * exactly when some part gives it.
   */
  lemma {:induction false} CellIntervalsParts(cell: string)
    ensures IsOffCell(Trim(cell)) ==> CellIntervals(Some(cell)) == []
    ensures !IsOffCell(Trim(cell)) ==> CellIntervals(Some(cell)) == Present(Mapped(CellParts(cell), PartInterval))
    ensures forall iv :: iv in CellIntervals(Some(cell)) <==>
      !IsOffCell(Trim(cell)) && Some(iv) in Mapped(CellParts(cell), PartInterval)
  {
    var rs := Mapped(CellParts(cell), PartInterval);
    CollectPresent(rs, |rs|);
    assert rs[..|rs|] == rs;
    forall iv {
      PresentMembers(rs, iv);
    }
  }

  /** A clock text has no whitespace, no separator and an upper-case form that is no off-word. */
  lemma ClockPairChars(a: string, b: string)
    requires IsClock(a) && IsClock(b)
    ensures forall k :: 0 <= k < |a + "-" + b| ==>
      (a + "-" + b)[k] !in PartSeparators && !IsSpace((a + "-" + b)[k])
    ensures !IsOffCell(a + "-" + b)
  {
    var s := a + "-" + b;
    forall k | 0 <= k < |s|
      ensures s[k] !in PartSeparators && !IsSpace(s[k])
    {
      if k < |a| {
        assert s[k] == a[k];
      } else if k > |a| {
        assert s[k] == b[k - |a| - 1];
      }
    }
    assert |Upper(s)| >= 9;
  }

  /** A cell "start-end" of two clock texts gives exactly that one interval. */
  lemma {:induction false} CellIntervalsClocks(a: string, b: string)
    requires IsClock(a) && IsClock(b)
    ensures CellIntervals(Some(a + "-" + b)) == [Interval(a, b)]
  {
    var iv := Interval(a, b);
    JoinedPairsIntervals([iv]);
    MappedAt([iv], PairText, 0);
    assert Join(Mapped([iv], PairText), ";") == a + "-" + b;
  }

  /** A part that is its own strip and matches at its start gives the groups of that match. */
  lemma PartIntervalAtStart(p: string, a: string, b: string)
    requires |p| > 0 && !IsSpace(p[0]) && !IsSpace(p[|p| - 1]) && MatchAt(p, 0) == Some((a, b))
    ensures PartInterval(p) == Some(Interval(a, b))
  {
    TrimFixed(p);
    assert Matches(p)[0].Some?;
    assert SearchMatch(p) == Some(0);
  }

  /** A clock text ends in a digit. */
  lemma ClockEnds(t: string)
    requires IsClock(t)
    ensures !IsSpace(t[0]) && !IsSpace(t[|t| - 1]) && t[0] !in PartSeparators
  {
  }

  /** A part of two clock texts around a separator, spaces allowed, gives the interval of the two clocks. */
  lemma PartIntervalSeparated(a: string, sp1: string, sep: string, sp2: string, b: string)
    requires IsClock(a) && IsClock(b) && AllSpace(sp1) && AllSpace(sp2) && IsSeparatorText(sep)
    ensures PartInterval(a + sp1 + sep + sp2 + b) == Some(Interval(a, b))
  {
    FiveSlices(a, sp1, sep, sp2, b);
    MatchPieces(a + sp1 + sep + sp2 + b, a, sp1, sep, sp2, b);
    PartFromPieces(a + sp1 + sep + sp2 + b, a, b, |a| + |sp1| + |sep| + |sp2|);
  }

  /** A text that starts and ends with a clock and matches at its start gives the groups of that match. */
  lemma PartFromPieces(p: string, a: string, b: string, q: nat)
    requires IsClock(a) && IsClock(b) && |a| <= |p| && |p| == q + |b|
    requires p[0..|a|] == a && p[q..q + |b|] == b && MatchAt(p, 0) == Some((a, b))
    ensures PartInterval(p) == Some(Interval(a, b))
  {
    ClockEnds(a);
    ClockEnds(b);
    assert p[0] == p[0..|a|][0];
    assert p[|p| - 1] == p[q..q + |b|][|b| - 1];
    PartIntervalAtStart(p, a, b);
  }

  /** The part "a-b" of two clock texts gives the interval from a to b. */
  lemma PartIntervalClocks(a: string, b: string)
    requires IsClock(a) && IsClock(b)
    ensures PartInterval(a + "-" + b) == Some(Interval(a, b))
  {
    var p := a + "-" + b;
    MatchClocks(a, b);
    ClockEnds(a);
    ClockEnds(b);
    assert p[0] == a[0];
    assert p[|p| - 1] == b[|b| - 1];
    PartIntervalAtStart(p, a, b);
  }

  /** The text "start-end" of an interval. */
  function PairText(iv: Interval): string
  {
    iv.start + "-" + iv.end
  }

  /** The text of a clock interval holds no separator, has no outer space and gives back the interval. */
  lemma PairTextFacts(iv: Interval)
    requires IsClock(iv.start) && IsClock(iv.end)
    ensures var t := PairText(iv);
      && NoPartSeparator(t) && |t| >= 9 && !IsSpace(t[0]) && !IsSpace(t[|t| - 1])
      && PartInterval(t) == Some(iv)
  {
    var t := PairText(iv);
    ClockPairChars(iv.start, iv.end);
    PartIntervalClocks(iv.start, iv.end);
    ClockEnds(iv.start);
    ClockEnds(iv.end);
    assert t[0] == iv.start[0];
    assert t[|t| - 1] == iv.end[|iv.end| - 1];
  }

  /** The texts of clock intervals hold no separator, and each gives back its interval. */
  lemma {:induction false} PairTexts(ivs: seq<Interval>)
    requires forall k :: 0 <= k < |ivs| ==> IsClock(ivs[k].start) && IsClock(ivs[k].end)
    ensures var texts := Mapped(ivs, PairText);
      && (forall k :: 0 <= k < |texts| ==> NoPartSeparator(texts[k]))
      && (forall k :: 0 <= k < |texts| ==> |texts[k]| >= 9 && PartInterval(texts[k]) == Some(ivs[k]))
      && (forall k :: 0 <= k < |texts| ==> !IsSpace(texts[k][0]) && !IsSpace(texts[k][|texts[k]| - 1]))
  {
    var texts := Mapped(ivs, PairText);
    forall k | 0 <= k < |texts|
      ensures NoPartSeparator(texts[k]) && |texts[k]| >= 9 && PartInterval(texts[k]) == Some(ivs[k])
      ensures !IsSpace(texts[k][0]) && !IsSpace(texts[k][|texts[k]| - 1])
    {
      MappedAt(ivs, PairText, k);
      PairTextFacts(ivs[k]);
    }
  }

  /** A cell joined on ';' from texts without separators, no outer space and no off-word, splits into those texts. */
  lemma {:induction false} JoinedCellParts(texts: seq<string>)
    requires |texts| >= 1 && |texts[0]| >= 9
    requires forall k :: 0 <= k < |texts| ==> NoPartSeparator(texts[k])
    requires !IsSpace(texts[0][0]) && texts[|texts| - 1] != [] && !IsSpace(texts[|texts| - 1][|texts[|texts| - 1]| - 1])
    ensures var cell := Join(texts, ";"); !IsOffCell(Trim(cell)) && CellParts(cell) == texts
  {
    JoinedCellTrim(texts);
    assert ";" == [';'];
    SplitAnyJoin(texts, ';', PartSeparators);
  }

  /** Such a joined cell is its own strip and no off-word. */
  lemma {:induction false} JoinedCellTrim(texts: seq<string>)
    requires |texts| >= 1 && |texts[0]| >= 9
    requires !IsSpace(texts[0][0]) && texts[|texts| - 1] != [] && !IsSpace(texts[|texts| - 1][|texts[|texts| - 1]| - 1])
    ensures var cell := Join(texts, ";"); Trim(cell) == cell && !IsOffCell(cell)
  {
    var cell := Join(texts, ";");
    JoinEnds(texts, ";");
    var first, last := texts[0], texts[|texts| - 1];
    assert cell[0] == first[0];
    assert cell[|cell| - 1] == last[|last| - 1];
    TrimFixed(cell);
    assert |Upper(cell)| >= 9;
  }

  /** A ';'-joined list of "start-end" clock pairs parses to exactly those intervals, in order. */
  lemma {:induction false} JoinedPairsIntervals(ivs: seq<Interval>)
    requires |ivs| >= 1
    requires forall k :: 0 <= k < |ivs| ==> IsClock(ivs[k].start) && IsClock(ivs[k].end)
    ensures CellIntervals(Some(Join(Mapped(ivs, PairText), ";"))) == ivs
  {
    var texts := Mapped(ivs, PairText);
    PairTexts(ivs);
    JoinedCellParts(texts);
    var rs := Mapped(texts, PartInterval);
    forall k | 0 <= k < |rs|
      ensures rs[k] == Some(ivs[k])
    {
      MappedAt(texts, PartInterval, k);
    }
    PresentAll(rs, ivs);
    CellIntervalsParts(Join(texts, ";"));
  }

  /** No character of the text is a part separator. */
  predicate NoPartSeparator(s: string)
  {
    forall k :: 0 <= k < |s| ==> s[k] !in PartSeparators
  }

  /** Two parts that each give an interval, joined on ';', give both intervals in order. */
  lemma {:induction false} TwoPartCell(p1: string, p2: string, iv1: Interval, iv2: Interval)
    requires NoPartSeparator(p1) && NoPartSeparator(p2) && |p1| >= 9 && |p2| > 0
    requires !IsSpace(p1[0]) && !IsSpace(p2[|p2| - 1])
    requires PartInterval(p1) == Some(iv1) && PartInterval(p2) == Some(iv2)
    ensures CellIntervals(Some(p1 + ";" + p2)) == [iv1, iv2]
  {
    var texts := [p1, p2];
    JoinedCellParts(texts);
    assert Join(texts, ";") == p1 + ";" + p2;
    var rs := Mapped(texts, PartInterval);
    MappedAt(texts, PartInterval, 0);
    MappedAt(texts, PartInterval, 1);
    PresentAll(rs, [iv1, iv2]);
    CellIntervalsParts(p1 + ";" + p2);
  }

  /** Splitting two texts without part separators apart again: the concatenation has none either. */
  lemma NoPartSeparatorConcat(x: string, y: string)
    requires NoPartSeparator(x) && NoPartSeparator(y)
    ensures NoPartSeparator(x + y)
  {
    assert forall k :: |x| <= k < |x + y| ==> (x + y)[k] == y[k - |x|];
  }

  /** Clock texts, whitespace and separator texts hold no part separator. */
  lemma PiecesNoPartSeparator(a: string, sp: string, sep: string)
    requires IsClock(a) && AllSpace(sp) && IsSeparatorText(sep)
    ensures NoPartSeparator(a) && NoPartSeparator(sp) && NoPartSeparator(sep)
  {
  }

  /** A part of two clock texts around a separator has no part separator, no outer space and gives its interval. */
  lemma SeparatedPart(a: string, sp1: string, sep: string, sp2: string, b: string)
    requires IsClock(a) && IsClock(b) && AllSpace(sp1) && AllSpace(sp2) && IsSeparatorText(sep)
    ensures var p := a + sp1 + sep + sp2 + b;
      && NoPartSeparator(p) && |p| >= 9 && !IsSpace(p[0]) && !IsSpace(p[|p| - 1])
      && PartInterval(p) == Some(Interval(a, b))
  {
    PiecesNoPartSeparator(a, sp1, sep);
    PiecesNoPartSeparator(b, sp2, sep);
    NoPartSeparatorConcat(a, sp1);
    NoPartSeparatorConcat(a + sp1, sep);
    NoPartSeparatorConcat(a + sp1 + sep, sp2);
    NoPartSeparatorConcat(a + sp1 + sep + sp2, b);
    FiveSlices(a, sp1, sep, sp2, b);
    var p := a + sp1 + sep + sp2 + b;
    ClockEnds(a);
    ClockEnds(b);
    assert p[0] == p[0..|a|][0];
    assert p[|p| - 1] == p[|p| - |b|..|p|][|b| - 1];
    PartIntervalSeparated(a, sp1, sep, sp2, b);
  }

  /**
   * A cell of two parts, each two clock texts around "to", a hyphen or an en
   * dash with any spaces ("09:00 to 18:00;15:00-19:00"), gives both
   * intervals, in part order.
   */
  lemma {:induction false} CellIntervalsTwoParts(a: string, sp1: string, s1: string, sp2: string, b: string,
                                                 c: string, sp3: string, s2: string, sp4: string, d: string)
    requires IsClock(a) && IsClock(b) && AllSpace(sp1) && AllSpace(sp2) && IsSeparatorText(s1)
    requires IsClock(c) && IsClock(d) && AllSpace(sp3) && AllSpace(sp4) && IsSeparatorText(s2)
    ensures CellIntervals(Some(a + sp1 + s1 + sp2 + b + ";" + c + sp3 + s2 + sp4 + d))
         == [Interval(a, b), Interval(c, d)]
  {
    var p1, p2 := a + sp1 + s1 + sp2 + b, c + sp3 + s2 + sp4 + d;
    SeparatedPart(a, sp1, s1, sp2, b);
    SeparatedPart(c, sp3, s2, sp4, d);
    TwoPartCell(p1, p2, Interval(a, b), Interval(c, d));
    JoinTail(a + sp1 + s1 + sp2 + b + ";", c, sp3, s2, sp4, d);
  }

  /** Appending five pieces one at a time appends their concatenation. */
  lemma JoinTail(x: string, c: string, sp3: string, s2: string, sp4: string, d: string)
    ensures x + (c + sp3 + s2 + sp4 + d) == x + c + sp3 + s2 + sp4 + d
  {
  }

  /** The result of the part loop's step k. */
  method PartResult(parts: seq<string>, k: nat) returns (r: Option<Interval>)
    requires k < |parts|
    ensures r == Mapped(parts, PartInterval)[k]
  {
    MappedAt(parts, PartInterval, k);
    r := PartInterval(parts[k]);
  }

  /** `parse_shift_cell`: no cell, an empty one and an off-word give no intervals; otherwise its parts are scanned. */
  method ParseShiftCell(cell: Option<string>) returns (intervals: seq<Interval>)
    ensures intervals == CellIntervals(cell)
  {
    if cell.None? {
      return [];
    }
    var s := Trim(cell.value);
    if s == "" || Upper(s) in OffWords {
      return [];
    }
    intervals := ScanParts(SplitAny(s, PartSeparators));
  }

  /** The part loop of `parse_shift_cell`: the interval of each part that has one, in part order. */
  method ScanParts(parts: seq<string>) returns (intervals: seq<Interval>)
    ensures intervals == Collect(Mapped(parts, PartInterval), |parts|)
  {
    ghost var rs := Mapped(parts, PartInterval);
    intervals := [];
    var k := 0;
    while k < |parts|
      invariant 0 <= k <= |parts|
      invariant intervals == Collect(rs, k)
    {
      var iv := PartResult(parts, k);
      if iv.Some? {
        intervals := intervals + [iv.value];
      }
      k := k + 1;
    }
  }

  // ---------------------------------------------------------------------
  // `make_shift_code`

  /** The characters a shift code may hold: `[A-Za-z0-9_-]`. */
  predicate CodeChar(c: char)
  {
    ('A' <= c <= 'Z') || ('a' <= c <= 'z') || ('0' <= c <= '9') || c == '_' || c == '-'
  }

  /** `re.sub(r'[^A-Za-z0-9_\-]', '_', s)`. */
  function Sanitize(s: string): (r: string)
    ensures |r| == |s|
    decreases |s|
  {
    if |s| == 0 then "" else [if CodeChar(s[0]) then s[0] else '_'] + Sanitize(s[1..])
  }

  /** Every character of a sanitized text may stand in a code, and a code-only text is kept as it is. */
  lemma {:induction false} SanitizeSpec(s: string)
    ensures forall k :: 0 <= k < |Sanitize(s)| ==> CodeChar(Sanitize(s)[k])
    ensures forall k :: 0 <= k < |s| ==> (Sanitize(s)[k] == s[k] <==> CodeChar(s[k]))
    decreases |s|
  {
    if |s| > 0 {
      SanitizeSpec(s[1..]);
      forall k | 0 <= k < |s|
        ensures CodeChar(Sanitize(s)[k])
        ensures Sanitize(s)[k] == s[k] <==> CodeChar(s[k])
      {
        if k > 0 {
          assert Sanitize(s)[k] == Sanitize(s[1..])[k - 1];
        }
      }
    }
  }

  /** The piece of one interval: start and end with ':' replaced by '_', joined by '-'. */
  function Piece(iv: Interval): string
  {
    ReplaceChar(iv.start, ':', '_') + "-" + ReplaceChar(iv.end, ':', '_')
  }

  /** The pieces of the first n intervals. */
  function Pieces(ivs: seq<Interval>, n: nat): (r: seq<string>)
    requires n <= |ivs|
    ensures |r| == n
  {
    if n == 0 then [] else Pieces(ivs, n - 1) + [Piece(ivs[n - 1])]
  }

  /** The shift code of an interval list: "OFF" for none, else "SH_" and the pieces joined by "__", sanitized. */
  function ShiftCodeFor(ivs: seq<Interval>): string
  {
    if |ivs| == 0 then "OFF" else Sanitize("SH_" + Join(Pieces(ivs, |ivs|), "__"))
  }

  /** The code is "OFF" exactly for no intervals, and holds only code characters. */
  lemma ShiftCodeSpec(ivs: seq<Interval>)
    ensures ShiftCodeFor(ivs) == "OFF" <==> |ivs| == 0
    ensures forall k :: 0 <= k < |ShiftCodeFor(ivs)| ==> CodeChar(ShiftCodeFor(ivs)[k])
  {
    if |ivs| > 0 {
      var raw := "SH_" + Join(Pieces(ivs, |ivs|), "__");
      SanitizeSpec(raw);
      assert raw[0] == 'S';
      assert Sanitize(raw)[0] == 'S';
    } else {
      assert CodeChar('O') && CodeChar('F');
    }
  }

  /** `make_shift_code`: the loop collects the pieces; the code is joined and sanitized after it. */
  method MakeShiftCode(intervals: seq<Interval>) returns (code: string)
    ensures code == ShiftCodeFor(intervals)
  {
    if |intervals| == 0 {
      return "OFF";
    }
    var parts: seq<string> := [];
    var k := 0;
    while k < |intervals|
      invariant 0 <= k <= |intervals|
      invariant parts == Pieces(intervals, k)
    {
      var it := intervals[k];
      var s := ReplaceChar(it.start, ':', '_');
      var e := ReplaceChar(it.end, ':', '_');
      parts := parts + [s + "-" + e];
      k := k + 1;
    }
    code := "SH_" + Join(parts, "__");
    code := Sanitize(code);
  }

  /** A text made of code characters only. */
  predicate CodeText(s: string)
  {
    forall k :: 0 <= k < |s| ==> CodeChar(s[k])
  }

  /** Sanitizing keeps a code text as it is, so sanitizing twice is sanitizing once. */
  lemma SanitizeKeeps(s: string)
    ensures CodeText(s) ==> Sanitize(s) == s
    ensures Sanitize(Sanitize(s)) == Sanitize(s)
  {
    SanitizeSpec(s);
    SanitizeSpec(Sanitize(s));
  }

  /** Code texts are closed under concatenation. */
  lemma CodeTextConcat(a: string, b: string)
    requires CodeText(a) && CodeText(b)
    ensures CodeText(a + b)
  {
    forall k | 0 <= k < |a + b|
      ensures CodeChar((a + b)[k])
    {
      if k >= |a| {
        assert (a + b)[k] == b[k - |a|];
      }
    }
  }

  /** Joining code texts with a code-text separator gives a code text. */
  lemma {:induction false} JoinCodeText(parts: seq<string>, sep: string)
    requires CodeText(sep)
    requires forall k :: 0 <= k < |parts| ==> CodeText(parts[k])
    ensures CodeText(Join(parts, sep))
    decreases |parts|
  {
    if |parts| > 1 {
      JoinCodeText(parts[1..], sep);
      assert CodeText(parts[0]);
      CodeTextConcat(parts[0], sep);
      CodeTextConcat(parts[0] + sep, Join(parts[1..], sep));
    }
  }

  /** The piece of an interval of two clock texts is a code text. */
  lemma PieceCodeText(iv: Interval)
    requires IsClock(iv.start) && IsClock(iv.end)
    ensures CodeText(Piece(iv))
  {
    var s := ReplaceChar(iv.start, ':', '_');
    var e := ReplaceChar(iv.end, ':', '_');
    assert CodeText(s) && CodeText(e);
    assert CodeText("-");
    CodeTextConcat(s, "-");
    CodeTextConcat(s + "-", e);
  }

  /** The pieces of clock intervals are code texts. */
  lemma {:induction false} PiecesCodeText(ivs: seq<Interval>, n: nat)
    requires n <= |ivs|
    requires forall k :: 0 <= k < |ivs| ==> IsClock(ivs[k].start) && IsClock(ivs[k].end)
    ensures forall k :: 0 <= k < n ==> CodeText(Pieces(ivs, n)[k])
  {
    if n > 0 {
      PiecesCodeText(ivs, n - 1);
      PieceCodeText(ivs[n - 1]);
    }
  }

  /**
   * For intervals of clock texts nothing needs sanitizing: the code is "SH_"
   * and the pieces joined by "__", as the code's documentation describes.
   */
  lemma ShiftCodeClocks(ivs: seq<Interval>)
    requires |ivs| > 0
    requires forall k :: 0 <= k < |ivs| ==> IsClock(ivs[k].start) && IsClock(ivs[k].end)
    ensures ShiftCodeFor(ivs) == "SH_" + Join(Pieces(ivs, |ivs|), "__")
  {
    JoinedPiecesCodeText(ivs);
    SanitizePrefixed(Join(Pieces(ivs, |ivs|), "__"));
  }

  /** The joined pieces of clock intervals are a code text. */
  lemma JoinedPiecesCodeText(ivs: seq<Interval>)
    requires forall k :: 0 <= k < |ivs| ==> IsClock(ivs[k].start) && IsClock(ivs[k].end)
    ensures CodeText(Join(Pieces(ivs, |ivs|), "__"))
  {
    PiecesCodeText(ivs, |ivs|);
    assert CodeText("__");
    JoinCodeText(Pieces(ivs, |ivs|), "__");
  }

  /** "SH_" before a code text needs no sanitizing. */
  lemma SanitizePrefixed(joined: string)
    requires CodeText(joined)
    ensures Sanitize("SH_" + joined) == "SH_" + joined
  {
    assert CodeText("SH_");
    CodeTextConcat("SH_", joined);
    SanitizeKeeps("SH_" + joined);
  }

  /** One interval of clock texts a-b is coded "SH_" then a and b with ':' made '_', joined by '-'. */
  lemma ShiftCodeOne(a: string, b: string)
    requires IsClock(a) && IsClock(b)
    ensures ShiftCodeFor([Interval(a, b)]) == "SH_" + ReplaceChar(a, ':', '_') + "-" + ReplaceChar(b, ':', '_')
  {
    var ivs := [Interval(a, b)];
    ShiftCodeClocks(ivs);
    assert Pieces(ivs, 1) == [Piece(Interval(a, b))];
  }

  // ---------------------------------------------------------------------
  // The row loop of `importer`

  /** The stripped text of column j of a row; a column the sheet lacks reads as "". */
  function Cell(row: seq<string>, j: nat): string
  {
    if j < |row| then Trim(row[j]) else ""
  }

  /** What a row of the sheet is, with the parsed shift of an employee row. */
  datatype RowKind =
    | DeptRow(dept: Option<string>)
    | HeaderRow
    | EmployeeRow(empcode: string, name: string, shiftCell: string, intervals: seq<Interval>, code: string)
    | OtherRow

  /** The row classifier: department rows, header rows, then rows whose first cell is all digits. */
  function Classify(row: seq<string>): RowKind
  {
    var row0 := Cell(row, 0);
    var lower := Lower(row0);
    if StartsWith(lower, "dept") then DeptRow(if Cell(row, 1) != "" then Some(Cell(row, 1)) else None)
    else if StartsWith(lower, "empcode") || StartsWith(lower, "employee") then HeaderRow
    else if row0 != "" && AllDigits(row0) then
      var shiftCell := Cell(row, 2);
      var intervals := CellIntervals(Some(shiftCell));
      EmployeeRow(row0, Cell(row, 1), shiftCell, intervals, ShiftCodeFor(intervals))
    else OtherRow
  }

  /** A first cell of digits cannot begin a department or header word. */
  lemma DigitsNotWord(s: string, word: string)
    requires s != "" && AllDigits(s) && word != "" && !IsDigit(word[0])
    ensures !StartsWith(Lower(s), word)
  {
    assert Lower(s)[0] == LowerChar(s[0]);
  }

  /**
   * A row is an employee row exactly when its stripped first cell is a
   * non-empty run of digits; the row then carries that cell as the employee
   * code and the shift parsed from column 2.
   */
  lemma ClassifyEmployee(row: seq<string>)
    ensures Classify(row).EmployeeRow? <==> Cell(row, 0) != "" && AllDigits(Cell(row, 0))
    ensures Classify(row).EmployeeRow? ==>
      && Classify(row).empcode == Cell(row, 0)
      && Classify(row).intervals == CellIntervals(Some(Cell(row, 2)))
      && Classify(row).code == ShiftCodeFor(Classify(row).intervals)
  {
    var row0 := Cell(row, 0);
    if row0 != "" && AllDigits(row0) {
      DigitsNotWord(row0, "dept");
      DigitsNotWord(row0, "empcode");
      DigitsNotWord(row0, "employee");
    }
  }

  /** A row whose first cell starts with "dept" sets the department from column 1, or clears it. */
  lemma ClassifyDept(row: seq<string>)
    requires StartsWith(Lower(Cell(row, 0)), "dept")
    ensures Classify(row) == DeptRow(if Cell(row, 1) == "" then None else Some(Cell(row, 1)))
  {
  }

  /** A row whose first cell starts with "empcode" or "employee" is a header row, skipped without any change. */
  lemma ClassifyHeader(st: Import, row: seq<string>, yearMonth: string)
    requires StartsWith(Lower(Cell(row, 0)), "empcode") || StartsWith(Lower(Cell(row, 0)), "employee")
    ensures Classify(row) == HeaderRow
    ensures RowStep(st, Classify(row), yearMonth) == st
  {
    assert Lower(Cell(row, 0))[0] == 'e';
  }

  /** The counters `importer` returns. */
  datatype Stats = Stats(employees: nat, shiftsCreated: nat, assignedMonth: nat)

  /**
   * The importer's state between rows: the database, the current department,
   * the shift codes written so far, the counters, and whether a month
   * assignment failed (the source raises there, ending the run).
   */
  datatype Import = Import(store: Store, dept: Option<string>, created: set<string>, stats: Stats, failed: bool)

  /** The state before the first row. */
  function StartImport(s: Store): Import
  {
    Import(s, None, {}, Stats(0, 0, 0), false)
  }

  /** The shift record written for a code the first time it is met. */
  function ShiftFor(code: string, intervals: seq<Interval>, shiftCell: string): ShiftMaster
  {
    if code != "OFF" then ShiftDoc(code, intervals, Some([]), 10, 60, shiftCell)
    else ShiftDoc("OFF", [], Some([]), 0, 0, "Off/Weekly off")
  }

  /** The default shift an employee is stored with: none for OFF. */
  function DefaultShift(code: string): Option<string>
  {
    if code != "OFF" then Some(code) else None
  }

  /** The shift record of an employee row, written the first time its code is met. */
  function ShiftStep(st: Import, shiftCell: string, intervals: seq<Interval>, code: string): Import
  {
    if code in st.created then st
    else st.(store := WithShift(st.store, ShiftFor(code, intervals, shiftCell)),
             created := st.created + {code},
             stats := st.stats.(shiftsCreated := st.stats.shiftsCreated + 1))
  }

  /** The employee upsert of an employee row, with the current department or "". */
  function RecordStep(st: Import, empcode: string, name: string, code: string): Import
  {
    st.(store := WithEmployee(st.store, empcode, name, st.dept.GetOr(""), DefaultShift(code)),
        stats := st.stats.(employees := st.stats.employees + 1))
  }

  /** The month assignment of an employee row, when a month is given; a month it cannot read fails the run. */
  function MonthStep(st: Import, empcode: string, code: string, yearMonth: string): Import
  {
    if yearMonth == "" then st
    else match BulkAssign(st.store, empcode, DefaultShift(code), yearMonth)
      case None => st.(failed := true)
      case Some(s) => st.(store := s, stats := st.stats.(assignedMonth := st.stats.assignedMonth + 1))
  }

  /**
   * One employee row: the shift record once per code, the employee upsert,
   * then, when a month is given, the month's assignments.
   */
  function EmployeeStep(st: Import, empcode: string, name: string, shiftCell: string,
                        intervals: seq<Interval>, code: string, yearMonth: string): Import
  {
    MonthStep(RecordStep(ShiftStep(st, shiftCell, intervals, code), empcode, name, code), empcode, code, yearMonth)
  }

  /** One row of the loop. */
  function RowStep(st: Import, kind: RowKind, yearMonth: string): Import
  {
    match kind
    case DeptRow(d) => st.(dept := d)
    case EmployeeRow(empcode, name, shiftCell, intervals, code) =>
      EmployeeStep(st, empcode, name, shiftCell, intervals, code, yearMonth)
    case _ => st
  }

  /** The first n rows, given their kinds; a failed month assignment ends the run. */
  function ImportKinds(st: Import, kinds: seq<RowKind>, n: nat, yearMonth: string): Import
    requires n <= |kinds|
  {
    if n == 0 then st
    else
      var before := ImportKinds(st, kinds, n - 1, yearMonth);
      if before.failed then before else RowStep(before, kinds[n - 1], yearMonth)
  }

  /** The run over a whole sheet. */
  function ImportSheet(s: Store, rows: seq<seq<string>>, yearMonth: string): Import
  {
    ImportKinds(StartImport(s), Mapped(rows, Classify), |rows|, yearMonth)
  }

  // ---------------------------------------------------------------------
  // What the run promises

  /** The number of employee rows among the first n kinds. */
  function EmployeeRows(kinds: seq<RowKind>, n: nat): nat
    requires n <= |kinds|
  {
    if n == 0 then 0 else EmployeeRows(kinds, n - 1) + (if kinds[n - 1].EmployeeRow? then 1 else 0)
  }

  /** The shift codes of the employee rows among the first n kinds. */
  function RowCodes(kinds: seq<RowKind>, n: nat): set<string>
    requires n <= |kinds|
  {
    if n == 0 then {} else RowCodes(kinds, n - 1) + (if kinds[n - 1].EmployeeRow? then {kinds[n - 1].code} else {})
  }

  /** A month text the month assignment accepts. */
  predicate MonthOk(yearMonth: string)
  {
    ParseYearMonth(yearMonth).Some? && 1 <= ParseYearMonth(yearMonth).value.1 <= 12
  }

  /** The month assignment fails exactly on a month text it cannot read, whatever the store. */
  lemma BulkAssignOk(s: Store, empId: string, code: Option<string>, yearMonth: string)
    ensures BulkAssign(s, empId, code, yearMonth).Some? <==> MonthOk(yearMonth)
  {
  }

  /** Once a run has failed, the later rows change nothing. */
  lemma {:induction false} FailedStays(st: Import, kinds: seq<RowKind>, n: nat, m: nat, yearMonth: string)
    requires n <= m <= |kinds|
    requires ImportKinds(st, kinds, n, yearMonth).failed
    ensures ImportKinds(st, kinds, m, yearMonth) == ImportKinds(st, kinds, n, yearMonth)
    decreases m
  {
    if m > n {
      FailedStays(st, kinds, n, m - 1, yearMonth);
    }
  }

  /** Without a month, or with one the assignment accepts, no row fails. */
  lemma {:induction false} NeverFails(st: Import, kinds: seq<RowKind>, n: nat, yearMonth: string)
    requires n <= |kinds| && !st.failed
    requires yearMonth == "" || MonthOk(yearMonth)
    ensures !ImportKinds(st, kinds, n, yearMonth).failed
  {
    if n > 0 {
      NeverFails(st, kinds, n - 1, yearMonth);
      var before := ImportKinds(st, kinds, n - 1, yearMonth);
      if kinds[n - 1].EmployeeRow? {
        var k := kinds[n - 1];
        EmployeeStepFailed(before, k.empcode, k.name, k.shiftCell, k.intervals, k.code, yearMonth);
      }
    }
  }

  /**
   * Every employee row adds one to the employee count, and, when a month is
   * given, one to the month count; other rows add nothing.
   */
  lemma {:induction false} ImportCounts(st: Import, kinds: seq<RowKind>, n: nat, yearMonth: string)
    requires n <= |kinds| && !st.failed
    ensures var r := ImportKinds(st, kinds, n, yearMonth);
      !r.failed ==>
        && r.stats.employees == st.stats.employees + EmployeeRows(kinds, n)
        && r.stats.assignedMonth == st.stats.assignedMonth + (if yearMonth == "" then 0 else EmployeeRows(kinds, n))
  {
    if n > 0 {
      ImportCounts(st, kinds, n - 1, yearMonth);
    }
  }

  /** The shift bookkeeping agrees with the store: one count per code written, and every code written is stored. */
  predicate ShiftsTracked(st: Import)
  {
    st.stats.shiftsCreated == |st.created| && st.created <= st.store.shiftMaster.Keys
  }

  /** An employee step writes the shift record of a code at most once, and keeps the bookkeeping. */
  lemma EmployeeStepShifts(st: Import, empcode: string, name: string, shiftCell: string,
                           intervals: seq<Interval>, code: string, yearMonth: string)
    requires ShiftsTracked(st)
    ensures var r := EmployeeStep(st, empcode, name, shiftCell, intervals, code, yearMonth);
      && ShiftsTracked(r)
      && r.created == st.created + {code}
      && (code in st.created ==> r.store.shiftMaster == st.store.shiftMaster)
      && (code !in st.created ==> r.store.shiftMaster == st.store.shiftMaster[code := ShiftFor(code, intervals, shiftCell)])
  {
    assert ShiftFor(code, intervals, shiftCell).shiftCode == code;
    LaterStepsKeepShifts(ShiftStep(st, shiftCell, intervals, code), empcode, name, code, yearMonth);
  }

  /** The employee upsert and the month assignment leave the shift records and their bookkeeping alone. */
  lemma LaterStepsKeepShifts(st: Import, empcode: string, name: string, code: string, yearMonth: string)
    ensures var r := MonthStep(RecordStep(st, empcode, name, code), empcode, code, yearMonth);
      && r.store.shiftMaster == st.store.shiftMaster
      && r.created == st.created
      && r.stats.shiftsCreated == st.stats.shiftsCreated
  {
    var st2 := RecordStep(st, empcode, name, code);
    assert st2.store.shiftMaster == st.store.shiftMaster;
    if yearMonth != "" {
      var b := BulkAssign(st2.store, empcode, DefaultShift(code), yearMonth);
      assert b.Some? ==> b.value.shiftMaster == st2.store.shiftMaster;
    }
  }

  /** One row keeps the shift bookkeeping and adds the code of an employee row to the codes written. */
  lemma RowStepShifts(st: Import, kind: RowKind, yearMonth: string)
    requires ShiftsTracked(st)
    ensures ShiftsTracked(RowStep(st, kind, yearMonth))
    ensures RowStep(st, kind, yearMonth).created == st.created + (if kind.EmployeeRow? then {kind.code} else {})
  {
    if kind.EmployeeRow? {
      EmployeeStepShifts(st, kind.empcode, kind.name, kind.shiftCell, kind.intervals, kind.code, yearMonth);
    }
  }

  /** The codes written over a run are those of its employee rows. */
  lemma {:induction false} ImportCreated(st: Import, kinds: seq<RowKind>, n: nat, yearMonth: string)
    requires n <= |kinds| && !st.failed && ShiftsTracked(st)
    ensures var r := ImportKinds(st, kinds, n, yearMonth);
      !r.failed ==> r.created == st.created + RowCodes(kinds, n)
  {
    if n > 0 {
      ImportCreated(st, kinds, n - 1, yearMonth);
      ImportTracked(st, kinds, n - 1, yearMonth);
      var before := ImportKinds(st, kinds, n - 1, yearMonth);
      if !before.failed {
        RowStepShifts(before, kinds[n - 1], yearMonth);
      }
    }
  }

  /** Over a run, each code written is counted once and is in the shift master. */
  lemma {:induction false} ImportTracked(st: Import, kinds: seq<RowKind>, n: nat, yearMonth: string)
    requires n <= |kinds| && !st.failed && ShiftsTracked(st)
    ensures var r := ImportKinds(st, kinds, n, yearMonth);
      !r.failed ==> ShiftsTracked(r)
  {
    if n > 0 {
      ImportTracked(st, kinds, n - 1, yearMonth);
      var before := ImportKinds(st, kinds, n - 1, yearMonth);
      if !before.failed {
        RowStepShifts(before, kinds[n - 1], yearMonth);
      }
    }
  }

  /**
   * An employee step stores the employee under its code with the current
   * department (or "") and the row's shift as default, none for OFF.
   */
  lemma EmployeeStepRecord(st: Import, empcode: string, name: string, shiftCell: string,
                           intervals: seq<Interval>, code: string, yearMonth: string)
    requires empcode != ""
    ensures var r := EmployeeStep(st, empcode, name, shiftCell, intervals, code, yearMonth);
      && empcode in r.store.employees
      && r.store.employees[empcode] == Employee(name, st.dept.GetOr(""), DefaultShift(code), "Active")
      && (r.store.employees[empcode].defaultShift.None? <==> code == "OFF")
  {
  }

  /** An employee step fails exactly when a month is given that the assignment cannot read. */
  lemma EmployeeStepFailed(st: Import, empcode: string, name: string, shiftCell: string,
                           intervals: seq<Interval>, code: string, yearMonth: string)
    requires !st.failed
    ensures EmployeeStep(st, empcode, name, shiftCell, intervals, code, yearMonth).failed
        <==> yearMonth != "" && !MonthOk(yearMonth)
  {
    var st2 := RecordStep(ShiftStep(st, shiftCell, intervals, code), empcode, name, code);
    BulkAssignOk(st2.store, empcode, DefaultShift(code), yearMonth);
  }

  /** Without a month, or with one the assignment accepts, a whole sheet is imported. */
  lemma ImportSheetCompletes(s: Store, rows: seq<seq<string>>, yearMonth: string)
    requires yearMonth == "" || MonthOk(yearMonth)
    ensures !ImportSheet(s, rows, yearMonth).failed
  {
    NeverFails(StartImport(s), Mapped(rows, Classify), |rows|, yearMonth);
  }

  /**
   * A sheet imported to the end counts each employee row once, counts a
   * month assignment per employee when a month is given, and writes each
   * distinct shift code once, into the shift master.
   */
  lemma ImportSheetCounts(s: Store, rows: seq<seq<string>>, yearMonth: string)
    ensures var r := ImportSheet(s, rows, yearMonth);
      var kinds := Mapped(rows, Classify);
      !r.failed ==>
        && r.stats.employees == EmployeeRows(kinds, |rows|)
        && r.stats.assignedMonth == (if yearMonth == "" then 0 else r.stats.employees)
        && r.stats.shiftsCreated == |RowCodes(kinds, |rows|)|
        && RowCodes(kinds, |rows|) <= r.store.shiftMaster.Keys
  {
    var kinds := Mapped(rows, Classify);
    ImportCounts(StartImport(s), kinds, |rows|, yearMonth);
    ImportCreated(StartImport(s), kinds, |rows|, yearMonth);
    ImportTracked(StartImport(s), kinds, |rows|, yearMonth);
  }

  // ---------------------------------------------------------------------
  // The importer as the source writes it

  /** The classification `importer` makes of one row, parsing an employee row's shift cell. */
  method ClassifyRow(row: seq<string>) returns (kind: RowKind)
    ensures kind == Classify(row)
  {
    var row0 := Cell(row, 0);
    if StartsWith(Lower(row0), "dept") {
      var deptName := Cell(row, 1);
      kind := DeptRow(if deptName != "" then Some(deptName) else None);
      return;
    }
    if StartsWith(Lower(row0), "empcode") || StartsWith(Lower(row0), "employee") {
      return HeaderRow;
    }
    if row0 != "" && AllDigits(row0) {
      var shiftCell := Cell(row, 2);
      var intervals := ParseShiftCell(Some(shiftCell));
      var code := MakeShiftCode(intervals);
      return EmployeeRow(row0, Cell(row, 1), shiftCell, intervals, code);
    }
    return OtherRow;
  }

  /** The shift record of one employee row, written the first time its code is met. */
  method ImportShift(db: Db, created: set<string>, stats: Stats, shiftCell: string, intervals: seq<Interval>, code: string)
    returns (created': set<string>, stats': Stats)
    modifies db
    ensures created' == created + {code}
    ensures code in created ==> db.State() == old(db.State()) && stats' == stats
    ensures code !in created ==>
      && db.State() == WithShift(old(db.State()), ShiftFor(code, intervals, shiftCell))
      && stats' == stats.(shiftsCreated := stats.shiftsCreated + 1)
  {
    created', stats' := created, stats;
    if code != "OFF" {
      if code !in created' {
        var _ := db.UpsertShiftMaster(code, intervals, Some([]), 10, 60, shiftCell);
        created' := created' + {code};
        stats' := stats'.(shiftsCreated := stats'.shiftsCreated + 1);
      }
    } else {
      if "OFF" !in created' {
        var _ := db.UpsertShiftMaster("OFF", [], Some([]), 0, 0, "Off/Weekly off");
        created' := created' + {"OFF"};
        stats' := stats'.(shiftsCreated := stats'.shiftsCreated + 1);
      }
    }
  }

  /** The database writes and counters of one employee row. */
  method ImportEmployee(db: Db, dept: Option<string>, created: set<string>, stats: Stats,
                        empcode: string, name: string, shiftCell: string, intervals: seq<Interval>, code: string,
                        yearMonth: string)
    returns (created': set<string>, stats': Stats, ok: bool)
    modifies db
    ensures Import(db.State(), dept, created', stats', !ok)
         == EmployeeStep(Import(old(db.State()), dept, created, stats, false), empcode, name, shiftCell, intervals, code, yearMonth)
  {
    ghost var st0 := Import(old(db.State()), dept, created, stats, false);
    created', stats' := ImportShift(db, created, stats, shiftCell, intervals, code);
    ghost var st1 := ShiftStep(st0, shiftCell, intervals, code);
    assert Import(db.State(), dept, created', stats', false) == st1;
    var defaultShift := if code != "OFF" then Some(code) else None;
    db.UpsertEmployee(empcode, name, if dept.Some? then dept.value else "", defaultShift);
    stats' := stats'.(employees := stats'.employees + 1);
    ghost var st2 := RecordStep(st1, empcode, name, code);
    assert Import(db.State(), dept, created', stats', false) == st2;
    ok := true;
    if yearMonth != "" {
      ok := db.BulkAssignShiftForMonth(empcode, defaultShift, yearMonth);
      if ok {
        stats' := stats'.(assignedMonth := stats'.assignedMonth + 1);
      }
    }
  }

  /** The kind of row i, as the loop classifies it. */
  method KindAt(rows: seq<seq<string>>, i: nat) returns (kind: RowKind)
    requires i < |rows|
    ensures kind == Mapped(rows, Classify)[i]
  {
    kind := ClassifyRow(rows[i]);
    MappedAt(rows, Classify, i);
  }

  /** The effect of one classified row on the database, the department and the counters. */
  method ImportRow(db: Db, kind: RowKind, dept: Option<string>, created: set<string>, stats: Stats, yearMonth: string)
    returns (dept': Option<string>, created': set<string>, stats': Stats, ok: bool)
    modifies db
    ensures Import(db.State(), dept', created', stats', !ok)
         == RowStep(Import(old(db.State()), dept, created, stats, false), kind, yearMonth)
  {
    dept', created', stats', ok := dept, created, stats, true;
    match kind {
      case DeptRow(d) =>
        dept' := d;
      case EmployeeRow(empcode, name, shiftCell, intervals, code) =>
        created', stats', ok := ImportEmployee(db, dept, created, stats,
                                               empcode, name, shiftCell, intervals, code, yearMonth);
      case _ =>
    }
  }

  /**
   * `importer` over the rows of the sheet: the returned counters and the
   * database are those of the run; ok is false when a month assignment
   * failed, and the writes made before it stay.
   */
  method Importer(db: Db, rows: seq<seq<string>>, yearMonth: string) returns (stats: Stats, ok: bool)
    modifies db
    ensures var r := ImportSheet(old(db.State()), rows, yearMonth);
      db.State() == r.store && stats == r.stats && ok == !r.failed
  {
    ghost var kinds := Mapped(rows, Classify);
    ghost var start := StartImport(db.State());
    var currentDept: Option<string> := None;
    var created: set<string> := {};
    stats := Stats(0, 0, 0);
    var i := 0;
    while i < |rows|
      invariant 0 <= i <= |rows|
      invariant Import(db.State(), currentDept, created, stats, false) == ImportKinds(start, kinds, i, yearMonth)
    {
      var kind := KindAt(rows, i);
      currentDept, created, stats, ok := ImportRow(db, kind, currentDept, created, stats, yearMonth);
      if !ok {
        FailedStays(start, kinds, i + 1, |rows|, yearMonth);
        return;
      }
      i := i + 1;
    }
    ok := true;
  }
}
