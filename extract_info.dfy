/**
 * The header search of the department-and-month extractor: the first ten
 * rows of a sheet are searched for the department and report-month labels,
 * and a row that holds only one of them may take the other from the row
 * below it.
 */
module ExtractInfo {

  import opened Wrappers
  import opened Search
  import opened MvaLabels
  import opened MvaBlocks

  /** What the extractor returns: both values, or the error result. */
  datatype Extracted = Found(department: string, month: string) | NotFound

  /** The number of rows searched as primary candidates. */
  const ScanRows := 10

  /** The department label's value and the report month label's value in a row. */
  function RowLabels(row: Row): (string, string)
  {
    (LabelValue(row, DeptKeys, 6), LabelValue(row, MonthKeys, 6))
  }

  /** A row holding one of the two values completed from the label values of the row below. */
  function Completed(here: (string, string), below: (string, string)): Option<(string, string)>
  {
    var dept := if |here.0| == 0 then below.0 else here.0;
    var month := if |here.1| == 0 then below.1 else here.1;
    if |dept| > 0 && |month| > 0 then Some((dept, month)) else None
  }

  /**
   * The pair row i yields, given the label values of every row: both values
   * found on it, or one found on it and the other on row i + 1; otherwise
   * none, and the partial find is dropped.
   */
  function Candidate(labels: seq<(string, string)>, i: nat): Option<(string, string)>
    requires i < |labels|
  {
    var (dept, month) := labels[i];
    if |dept| > 0 && |month| > 0 then Some((dept, month))
    else if (|dept| > 0 || |month| > 0) && i + 1 < |labels| then Completed(labels[i], labels[i + 1])
    else None
  }

  /** The number of primary candidate rows. */
  function Scanned(n: nat): (r: nat)
    ensures r <= n && r <= ScanRows
  {
    Min(ScanRows, n)
  }

  /** The pair each primary candidate row yields. */
  function Candidates(labels: seq<(string, string)>): (r: seq<Option<(string, string)>>)
    ensures |r| == Scanned(|labels|)
  {
    seq(Scanned(|labels|), i requires 0 <= i < Scanned(|labels|) => Candidate(labels, i))
  }

  predicate IsFound(c: Option<(string, string)>)
  {
    c.Some?
  }

  /** The pair of the first candidate row that yields one. */
  function ExtractFrom(labels: seq<(string, string)>): Extracted
  {
    var cs := Candidates(labels);
    match FirstWhere(cs, IsFound, 0, |cs|)
    case None => NotFound
    case Some(i) => Found(cs[i].value.0, cs[i].value.1)
  }

  /** `extract_dept_and_month` on a sheet already read. */
  function Extract(grid: Grid): Extracted
  {
    ExtractFrom(Mapped(grid, RowLabels))
  }

  // ---------------------------------------------------------------------
  // One row

  /**
   * A pair a row yields has both values non-empty; a value found on row i is
   * kept, only the missing one is taken from row i + 1, and a row that holds
   * neither yields nothing.
   */
  lemma CandidateSpec(labels: seq<(string, string)>, i: nat)
    requires i < |labels|
    ensures var c := Candidate(labels, i);
      && (labels[i].0 == "" && labels[i].1 == "" ==> c.None?)
      && (c.Some? ==> c.value.0 != "" && c.value.1 != "")
      && (c.Some? && labels[i].0 != "" ==> c.value.0 == labels[i].0)
      && (c.Some? && labels[i].1 != "" ==> c.value.1 == labels[i].1)
      && (c.Some? && labels[i].0 == "" ==> c.value.0 == labels[i + 1].0)
      && (c.Some? && labels[i].1 == "" ==> c.value.1 == labels[i + 1].1)
  {
  }

  /** Row i + 1 is consulted only when row i has exactly one of the values. */
  lemma CandidateNextRowUnused(labels: seq<(string, string)>, labels': seq<(string, string)>, i: nat)
    requires i < |labels| && i < |labels'| && labels[i] == labels'[i]
    requires (labels[i].0 != "") == (labels[i].1 != "")
    ensures Candidate(labels, i) == Candidate(labels', i)
  {
  }

  // ---------------------------------------------------------------------
  // The search

  /**
   * A found pair is that of the first candidate row that yields one, the
   * rows before it yield nothing, and both values are non-empty.
   */
  lemma ExtractFound(labels: seq<(string, string)>)
    requires ExtractFrom(labels).Found?
    ensures exists i ::
      && 0 <= i < Scanned(|labels|)
      && Candidate(labels, i) == Some((ExtractFrom(labels).department, ExtractFrom(labels).month))
      && (forall j :: 0 <= j < i ==> Candidate(labels, j).None?)
    ensures ExtractFrom(labels).department != "" && ExtractFrom(labels).month != ""
  {
    var cs := Candidates(labels);
    FirstWhereSpec(cs, IsFound, 0, |cs|);
    var i := FirstWhere(cs, IsFound, 0, |cs|).value;
    assert cs[i] == Candidate(labels, i);
    CandidateSpec(labels, i);
    assert forall j :: 0 <= j < i ==> cs[j] == Candidate(labels, j);
  }

  /** NotFound means exactly that no candidate row yields a pair. */
  lemma ExtractNotFound(labels: seq<(string, string)>)
    ensures ExtractFrom(labels).NotFound? <==> forall i :: 0 <= i < Scanned(|labels|) ==> Candidate(labels, i).None?
  {
    var cs := Candidates(labels);
    FirstWhereSpec(cs, IsFound, 0, |cs|);
    assert forall i :: 0 <= i < |cs| ==> cs[i] == Candidate(labels, i);
  }

  /** Rows below the eleventh are never read: the first eleven rows decide the result. */
  lemma ExtractFirstRows(grid: Grid)
    requires |grid| > ScanRows + 1
    ensures Extract(grid) == Extract(grid[..ScanRows + 1])
  {
    MappedPrefix(grid, RowLabels, ScanRows + 1);
    ExtractFromPrefix(Mapped(grid, RowLabels));
  }

  /** The search reads the label values of the first eleven rows only. */
  lemma ExtractFromPrefix(labels: seq<(string, string)>)
    requires |labels| > ScanRows + 1
    ensures ExtractFrom(labels) == ExtractFrom(labels[..ScanRows + 1])
  {
    CandidatesPrefix(labels, labels[..ScanRows + 1]);
  }

  /** Label lists that agree on their first eleven entries, both that long or longer, give the same candidates. */
  lemma CandidatesPrefix(labels: seq<(string, string)>, labels': seq<(string, string)>)
    requires |labels| > ScanRows && |labels'| > ScanRows
    requires forall i :: 0 <= i <= ScanRows ==> labels[i] == labels'[i]
    ensures Candidates(labels) == Candidates(labels')
  {
    forall i | 0 <= i < ScanRows
      ensures Candidate(labels, i) == Candidate(labels', i)
    {
      assert labels[i] == labels'[i] && labels[i + 1] == labels'[i + 1];
    }
  }

  // ---------------------------------------------------------------------
  // The extractor as the source writes it

  /** The department lookup on row i. */
  method DeptAt(grid: Grid, i: nat, ghost labels: (string, string)) returns (dept: string)
    requires i < |grid| && labels == RowLabels(grid[i])
    ensures dept == labels.0
  {
    dept := FindLabelValue(grid[i], DeptKeys);
  }

  /** The report month lookup on row i. */
  method MonthAt(grid: Grid, i: nat, ghost labels: (string, string)) returns (month: string)
    requires i < |grid| && labels == RowLabels(grid[i])
    ensures month == labels.1
  {
    month := FindLabelValue(grid[i], MonthKeys);
  }

  /** The second half of the loop body: the missing value looked up on row i + 1. */
  method CompleteFrom(grid: Grid, i: nat, dept: string, month: string, ghost below: (string, string))
    returns (c: Option<(string, string)>)
    requires i < |grid| && below == RowLabels(grid[i])
    ensures c == Completed((dept, month), below)
  {
    var dept', month' := dept, month;
    if |dept'| == 0 {
      dept' := DeptAt(grid, i, below);
    }
    if |month'| == 0 {
      month' := MonthAt(grid, i, below);
    }
    if |dept'| > 0 && |month'| > 0 {
      c := Some((dept', month'));
    } else {
      c := None;
    }
  }

  /** The body of the row loop: both labels on row i, then the missing one on row i + 1. */
  method RowCandidate(grid: Grid, i: nat, ghost labels: seq<(string, string)>) returns (c: Option<(string, string)>)
    requires i < |grid| && |labels| == |grid| && labels[i] == RowLabels(grid[i])
    requires i + 1 < |grid| ==> labels[i + 1] == RowLabels(grid[i + 1])
    ensures c == Candidate(labels, i)
  {
    var dept := DeptAt(grid, i, labels[i]);
    var month := MonthAt(grid, i, labels[i]);
    if |dept| > 0 && |month| > 0 {
      c := Some((dept, month));
    } else if (|dept| > 0 || |month| > 0) && i + 1 < |grid| {
      c := CompleteFrom(grid, i + 1, dept, month, labels[i + 1]);
    } else {
      c := None;
    }
  }

  /** `extract_dept_and_month`: the row loop over the first ten rows, returning on the first pair. */
  method ExtractDeptAndMonth(grid: Grid) returns (r: Extracted)
    ensures r == Extract(grid)
  {
    var n := Min(ScanRows, |grid|);
    ghost var labels := Mapped(grid, RowLabels);
    forall k | 0 <= k < |grid|
      ensures labels[k] == RowLabels(grid[k])
    {
      MappedAt(grid, RowLabels, k);
    }
    ghost var cs := Candidates(labels);
    var i := 0;
    while i < n
      invariant 0 <= i <= n == |cs|
      invariant FirstWhere(cs, IsFound, i, n) == FirstWhere(cs, IsFound, 0, n)
    {
      var c := RowCandidate(grid, i, labels);
      assert cs[i] == c;
      if c.Some? {
        return Found(c.value.0, c.value.1);
      }
      i := i + 1;
    }
    return NotFound;
  }
}
