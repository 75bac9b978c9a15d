/**
 * `parse_mva_blocks`: the cursor scan that cuts a sheet into one block per
 * employee. A block starts at a header row holding "empcode", takes its day
 * numbers from the first day row within the next 14 rows, and reads its
 * IN/OUT/WORK/Status rows from the 12 rows below the weekday row.
 */
module MvaBlocks {

  import opened Wrappers
  import opened Text
  import opened Numerals
  import opened Search
  import opened MvaLabels

  /** Every row has `ncols` cells, as in a data frame. */
  predicate Rectangular(grid: Grid, ncols: nat)
  {
    forall r :: 0 <= r < |grid| ==> |grid[r]| == ncols
  }

  // ---------------------------------------------------------------------
  // Integer cells and the day row

  /** `is_int_str`: `int(float(s))` succeeds (plain decimal notation only). */
  predicate IsIntStr(s: string)
  {
    ParseDecimal(s).Some?
  }

  /** `int(float(s))`: the numeral truncated toward zero. */
  function IntOf(s: string): int
    requires IsIntStr(s)
  {
    ParseDecimal(s).value.Truncated()
  }

  /** `float` strips its argument, so cleaning a cell first changes nothing. */
  lemma ParseDecimalClean(s: string)
    ensures ParseDecimal(CleanStr(s)) == ParseDecimal(s)
  {
    TrimIdempotent(s);
  }

  /** `[int(float(x)) for x in row[:n] if is_int_str(x)]`. */
  function IntTokens(row: Row, n: nat): seq<int>
    requires n <= |row|
  {
    if n == 0 then []
    else IntTokens(row, n - 1) + (if IsIntStr(row[n - 1]) then [IntOf(row[n - 1])] else [])
  }

  /** The day-number row test: at least 10 integer cells, min(ints) == 1 and max(ints) <= 31. */
  predicate IsDayRow(row: Row)
  {
    var ints := IntTokens(row, |row|);
    |ints| >= 10 && 1 in ints && forall t :: t in ints ==> 1 <= t <= 31
  }

  /** The day row of the block whose header is row i: the first one among rows i+1 .. i+14. */
  function DayRowSearch(grid: Grid, i: nat): (r: Option<nat>)
    requires i < |grid|
    ensures r.Some? ==> i < r.value < |grid| && r.value <= i + 14
  {
    FirstWhere(grid, IsDayRow, i + 1, Min(i + 15, |grid|))
  }

  /** The day row lies within the 14 rows below the header and no row before it qualifies; None means none of them does. */
  lemma DayRowSearchSpec(grid: Grid, i: nat)
    requires i < |grid|
    ensures var r := DayRowSearch(grid, i);
      (r.Some? ==> IsDayRow(grid[r.value]) && forall k :: i < k < r.value ==> !IsDayRow(grid[k]))
      && (r.None? ==> forall k :: i < k <= i + 14 && k < |grid| ==> !IsDayRow(grid[k]))
  {
    FirstWhereSpec(grid, IsDayRow, i + 1, Min(i + 15, |grid|));
  }

  /** The day-row loop of `parse_mva_blocks`. */
  method FindDayRow(grid: Grid, i: nat) returns (d: Option<nat>)
    requires i < |grid|
    ensures d == DayRowSearch(grid, i)
  {
    var hi := Min(i + 15, |grid|);
    var j := i + 1;
    while j < hi
      invariant i + 1 <= j <= hi
      invariant FirstWhere(grid, IsDayRow, j, hi) == DayRowSearch(grid, i)
    {
      if IsDayRow(grid[j]) {
        return Some(j);
      }
      j := j + 1;
    }
    return None;
  }

  // ---------------------------------------------------------------------
  // The header row

  function CleanRow(row: Row): (r: Row)
    ensures |r| == |row|
    decreases |row|
  {
    if |row| == 0 then [] else [CleanStr(row[0])] + CleanRow(row[1..])
  }

  /** The header test: "empcode" in the lower-cased, space-joined cleaned row. */
  predicate IsHeaderRow(row: Row)
  {
    Contains(Lower(Join(CleanRow(row), " ")), "empcode")
  }

  // ---------------------------------------------------------------------
  // Label rows

  datatype Role = InRole | OutRole | WorkRole | StatusRole

  /** The role a row's first cell announces: IN, OUT, WORK prefixes first, then a STATUS substring. */
  function RoleOf(firstCell: string): Option<Role>
  {
    var up := Upper(CleanStr(firstCell));
    if StartsWith(up, "IN") then Some(InRole)
    else if StartsWith(up, "OUT") then Some(OutRole)
    else if StartsWith(up, "WORK") then Some(WorkRole)
    else if Contains(up, "STATUS") then Some(StatusRole)
    else None
  }

  /** The role of a row: that of its first cell (a row without cells announces none). */
  function RowRole(row: Row): Option<Role>
  {
    if |row| == 0 then None else RoleOf(row[0])
  }

  /** The test "this row announces `role`". */
  function RoleTest(role: Role): Row -> bool
  {
    row => RowRole(row) == Some(role)
  }

  /** `label_to_idx`: the row bound to each role, if any. */
  datatype LabelRows = LabelRows(inRow: Option<nat>, outRow: Option<nat>, workRow: Option<nat>, statusRow: Option<nat>)
  {
    function Get(role: Role): Option<nat>
    {
      match role
      case InRole => inRow
      case OutRole => outRow
      case WorkRole => workRow
      case StatusRole => statusRow
    }

    /** `label_to_idx[role] = j`: overwrites that role and no other. */
    function Set(role: Role, j: nat): (r: LabelRows)
      ensures r.Get(role) == Some(j)
      ensures forall other :: other != role ==> r.Get(other) == Get(other)
    {
      match role
      case InRole => this.(inRow := Some(j))
      case OutRole => this.(outRow := Some(j))
      case WorkRole => this.(workRow := Some(j))
      case StatusRole => this.(statusRow := Some(j))
    }
  }

  const NoLabels := LabelRows(None, None, None, None)

  /** `label_to_idx` after scanning rows start .. j-1 in order, each announcing row overwriting its role. */
  function Bind(grid: Grid, start: nat, j: nat): LabelRows
    requires j <= |grid|
    decreases j
  {
    if j <= start then NoLabels
    else
      var before := Bind(grid, start, j - 1);
      match RowRole(grid[j - 1])
      case None => before
      case Some(role) => before.Set(role, j - 1)
  }

  /** Label binding is last-match-wins: each role is bound to the last row of start .. j-1 announcing it. */
  lemma {:induction false} BindIsLastMatch(grid: Grid, start: nat, j: nat, role: Role)
    requires j <= |grid|
    ensures Bind(grid, start, j).Get(role) == LastWhere(grid, RoleTest(role), start, j)
    decreases j
  {
    if j > start {
      BindIsLastMatch(grid, start, j - 1, role);
      assert RoleTest(role)(grid[j - 1]) <==> RowRole(grid[j - 1]) == Some(role);
    }
  }

  /** The label-row loop of `parse_mva_blocks` over rows start .. stop-1. */
  method BindLabelRows(grid: Grid, ncols: nat, start: nat, stop: nat) returns (labels: LabelRows)
    requires Rectangular(grid, ncols) && ncols > 0 && start <= stop <= |grid|
    ensures labels == Bind(grid, start, stop)
  {
    labels := NoLabels;
    var j := start;
    while j < stop
      invariant start <= j <= stop
      invariant labels == Bind(grid, start, j)
    {
      var up := Upper(CleanStr(grid[j][0]));
      if StartsWith(up, "IN") {
        labels := labels.(inRow := Some(j));
      } else if StartsWith(up, "OUT") {
        labels := labels.(outRow := Some(j));
      } else if StartsWith(up, "WORK") {
        labels := labels.(workRow := Some(j));
      } else if Contains(up, "STATUS") {
        labels := labels.(statusRow := Some(j));
      }
      j := j + 1;
    }
  }

  // ---------------------------------------------------------------------
  // Day columns and daily records

  /** The day number a cleaned cell holds: an integer in 1..31. */
  function CellDay(val: string): (r: Option<nat>)
    ensures r.Some? ==> 1 <= r.value <= 31
  {
    if IsIntStr(val) && 1 <= IntOf(val) <= 31 then Some(IntOf(val) as nat) else None
  }

  /** Per column, the day number its cleaned cell holds. */
  function CellDays(row: Row): (r: seq<Option<nat>>)
    ensures |r| == |row|
  {
    seq(|row|, c requires 0 <= c < |row| => CellDay(CleanStr(row[c])))
  }

  /** `(c, day)` for every c before n where `days[c]` is a day, left to right. */
  function Picks(days: seq<Option<nat>>, n: nat): seq<(nat, nat)>
    requires n <= |days|
  {
    if n == 0 then [] else Picks(days, n - 1) + PickAt(days, n - 1)
  }

  /** `[(c, day)]` where `days[c]` is a day, else nothing. */
  function PickAt(days: seq<Option<nat>>, c: nat): (r: seq<(nat, nat)>)
    requires c < |days|
    ensures r == [] || (|r| == 1 && r[0].0 == c && days[c] == Some(r[0].1))
  {
    match days[c] case None => [] case Some(day) => [(c, day)]
  }

  /** `(col, day)` for every column before n whose cleaned cell is a day number, left to right. */
  function DayCols(row: Row, n: nat): seq<(nat, nat)>
    requires n <= |row|
  {
    Picks(CellDays(row), n)
  }

  /** Each pick names a position before n and the day found there, in strictly increasing position order. */
  lemma {:induction false} PicksOrdered(days: seq<Option<nat>>, n: nat)
    requires n <= |days|
    ensures forall k :: 0 <= k < |Picks(days, n)| ==>
      Picks(days, n)[k].0 < n && days[Picks(days, n)[k].0] == Some(Picks(days, n)[k].1)
    ensures forall a, b :: 0 <= a < b < |Picks(days, n)| ==> Picks(days, n)[a].0 < Picks(days, n)[b].0
    decreases n
  {
    if n > 0 {
      PicksOrdered(days, n - 1);
      var init := Picks(days, n - 1);
      var last := PickAt(days, n - 1);
      var r := init + last;
      assert Picks(days, n) == r;
      forall k | 0 <= k < |r| ensures r[k].0 < n && days[r[k].0] == Some(r[k].1) {
        if k < |init| {
          assert r[k] == init[k];
        } else {
          assert r[k] == last[0];
        }
      }
      forall a, b | 0 <= a < b < |r| ensures r[a].0 < r[b].0 {
        assert r[a] == init[a];
        if b < |init| {
          assert r[b] == init[b];
        } else {
          assert r[b] == last[0];
        }
      }
    }
  }

  /** The day of column c, as `CellDays` records it, is the day its cleaned cell holds: 1..31. */
  lemma CellDaysAt(row: Row, c: nat)
    requires c < |row|
    ensures CellDays(row)[c] == CellDay(CleanStr(row[c]))
    ensures CellDays(row)[c].Some? ==> 1 <= CellDays(row)[c].value <= 31
  {
  }

  /** The day columns lie before n, hold the day of their cell (1..31) and come in strictly increasing column order. */
  lemma DayColsOrdered(row: Row, n: nat)
    requires n <= |row|
    ensures var r := DayCols(row, n);
      (forall k :: 0 <= k < |r| ==> r[k].0 < n && CellDays(row)[r[k].0] == Some(r[k].1) && 1 <= r[k].1 <= 31)
      && (forall a, b :: 0 <= a < b < |r| ==> r[a].0 < r[b].0)
  {
    var days, r := CellDays(row), DayCols(row, n);
    assert r == Picks(days, n);
    PicksOrdered(days, n);
    assert forall k :: 0 <= k < |r| ==> r[k].0 < n;
    forall k | 0 <= k < |r| ensures 1 <= r[k].1 <= 31 {
      CellDaysAt(row, r[k].0);
    }
  }

  /** Cleaning a cell first changes neither the integer test nor the day number. */
  lemma CellDayClean(x: string)
    ensures IsIntStr(CleanStr(x)) == IsIntStr(x)
    ensures CellDay(CleanStr(x)) == (if IsIntStr(x) && 1 <= IntOf(x) <= 31 then Some(IntOf(x) as nat) else None)
  {
    ParseDecimalClean(x);
  }

  /** When every integer cell holds 1..31, each of them is a day column. */
  lemma {:induction false} DayColsOfDayRow(row: Row, n: nat)
    requires n <= |row|
    requires forall t :: t in IntTokens(row, n) ==> 1 <= t <= 31
    ensures |DayCols(row, n)| == |IntTokens(row, n)|
    decreases n
  {
    if n > 0 {
      var c := n - 1;
      var init := IntTokens(row, c);
      var last := if IsIntStr(row[c]) then [IntOf(row[c])] else [];
      assert IntTokens(row, n) == init + last;
      forall t | t in init ensures 1 <= t <= 31 {
        assert t in init + last;
      }
      if IsIntStr(row[c]) {
        assert IntOf(row[c]) in init + last;
      }
      DayColsOfDayRow(row, c);
      PickAtCount(row, c);
      assert DayCols(row, n) == DayCols(row, c) + PickAt(CellDays(row), c);
    }
  }

  /** An integer cell holding 1..31 is picked as a day column, and no other cell is. */
  lemma PickAtCount(row: Row, c: nat)
    requires c < |row|
    requires IsIntStr(row[c]) ==> 1 <= IntOf(row[c]) <= 31
    ensures |PickAt(CellDays(row), c)| == if IsIntStr(row[c]) then 1 else 0
  {
    CellDaysAt(row, c);
    CellDayClean(row[c]);
  }

  /** One column of the day-column loop: `(col, dnum)` when the cleaned cell is a day number. */
  method DayColAt(row: Row, col: nat) returns (entry: seq<(nat, nat)>)
    requires col < |row|
    ensures entry == PickAt(CellDays(row), col)
  {
    assert CellDays(row)[col] == CellDay(CleanStr(row[col]));
    entry := [];
    var val := CleanStr(row[col]);
    if IsIntStr(val) {
      var dnum := IntOf(val);
      if 1 <= dnum <= 31 {
        entry := [(col, dnum as nat)];
      }
    }
  }

  /** The day-column loop of `parse_mva_blocks`. */
  method DayColumns(row: Row) returns (cols: seq<(nat, nat)>)
    ensures cols == DayCols(row, |row|)
  {
    cols := [];
    var col := 0;
    ghost var days := CellDays(row);
    while col < |row|
      invariant 0 <= col <= |row|
      invariant cols == Picks(days, col)
    {
      var entry := DayColAt(row, col);
      assert Picks(days, col + 1) == Picks(days, col) + entry;
      cols := cols + entry;
      col := col + 1;
    }
  }

  datatype DailyRecord = DailyRecord(day: nat, weekday: string, inTime: string, outTime: string,
                                     workTime: string, status: string)

  /** `cell_at`: the cleaned cell, or "" for an unbound row or a cell outside the grid. */
  function CellAt(grid: Grid, ridx: Option<nat>, c: nat): string
  {
    if ridx.None? || ridx.value >= |grid| || c >= |grid[ridx.value]| then ""
    else CleanStr(grid[ridx.value][c])
  }

  function MakeRecord(grid: Grid, col: (nat, nat), weekdayRow: Option<nat>, labels: LabelRows): DailyRecord
  {
    DailyRecord(col.1, CellAt(grid, weekdayRow, col.0), CellAt(grid, labels.inRow, col.0),
                CellAt(grid, labels.outRow, col.0), CellAt(grid, labels.workRow, col.0),
                CellAt(grid, labels.statusRow, col.0))
  }

  /** One record per day column, in column order. */
  function Records(grid: Grid, cols: seq<(nat, nat)>, weekdayRow: Option<nat>, labels: LabelRows): (r: seq<DailyRecord>)
    ensures |r| == |cols|
  {
    seq(|cols|, k requires 0 <= k < |cols| => MakeRecord(grid, cols[k], weekdayRow, labels))
  }

  /** Record k carries the day of day column k. */
  lemma RecordDays(grid: Grid, cols: seq<(nat, nat)>, weekdayRow: Option<nat>, labels: LabelRows)
    ensures forall k :: 0 <= k < |cols| ==> Records(grid, cols, weekdayRow, labels)[k].day == cols[k].1
  {
  }

  /** The daily-record loop of `parse_mva_blocks`. */
  method BuildDailyRecords(grid: Grid, cols: seq<(nat, nat)>, weekdayRow: Option<nat>, labels: LabelRows)
    returns (daily: seq<DailyRecord>)
    ensures daily == Records(grid, cols, weekdayRow, labels)
  {
    daily := [];
    var k := 0;
    while k < |cols|
      invariant 0 <= k <= |cols|
      invariant |daily| == k
      invariant forall i :: 0 <= i < k ==> daily[i] == MakeRecord(grid, cols[i], weekdayRow, labels)
    {
      var (colIdx, dnum) := cols[k];
      var weekday := CellAt(grid, weekdayRow, colIdx);
      var inTime := CellAt(grid, labels.inRow, colIdx);
      var outTime := CellAt(grid, labels.outRow, colIdx);
      var workTime := CellAt(grid, labels.workRow, colIdx);
      var status := CellAt(grid, labels.statusRow, colIdx);
      daily := daily + [DailyRecord(dnum, weekday, inTime, outTime, workTime, status)];
      k := k + 1;
    }
  }

  // ---------------------------------------------------------------------
  // Blocks and the scan

  /** One employee block; the summary-row figures of the sheet are not part of it. */
  datatype Block = Block(empcode: string, name: string, dept: string, month: string,
                         daily: seq<DailyRecord>, headerRow: nat, dayRow: nat)

  const DeptKeys: seq<string> := ["deptname", "dept name", "department"]
  const MonthKeys: seq<string> := ["reportmonth", "report month"]

  /** The month label: looked up on the header row, else on the row below it. */
  function MonthValue(grid: Grid, i: nat): string
    requires i < |grid|
  {
    var m := LabelValue(grid[i], MonthKeys, 6);
    if m == "" && i + 1 < |grid| then LabelValue(grid[i + 1], MonthKeys, 6) else m
  }

  /** The weekday row, just below the day row when the grid has one. */
  function WeekdayRow(grid: Grid, d: nat): Option<nat>
  {
    if d + 1 < |grid| then Some(d + 1) else None
  }

  /** The first row scanned for labels: below the weekday row, else below the day row. */
  function LabelStart(grid: Grid, d: nat): nat
  {
    if d + 1 < |grid| then d + 2 else d + 1
  }

  /** The labels bound in the (at most) 12 rows from `LabelStart`. */
  function ScanLabels(grid: Grid, d: nat): LabelRows
    requires d < |grid|
  {
    var start := LabelStart(grid, d);
    Bind(grid, start, Min(start + 12, |grid|))
  }

  /**
   * Each role is bound to the last row announcing it among the at most 12 rows
   * from `LabelStart`, all of them past the weekday row; an unbound role has no
   * announcing row there.
   */
  lemma ScanLabelsSpec(grid: Grid, d: nat, role: Role)
    requires d < |grid|
    ensures var start, stop := LabelStart(grid, d), Min(LabelStart(grid, d) + 12, |grid|);
      var r := ScanLabels(grid, d).Get(role);
      (r.Some? ==> d + 1 < start <= r.value < stop && RowRole(grid[r.value]) == Some(role)
                   && forall k :: r.value < k < stop ==> RowRole(grid[k]) != Some(role))
      && (r.None? ==> forall k :: start <= k < stop ==> RowRole(grid[k]) != Some(role))
  {
    var start := LabelStart(grid, d);
    var stop := Min(start + 12, |grid|);
    BindIsLastMatch(grid, start, stop, role);
    LastWhereSpec(grid, RoleTest(role), start, stop);
  }

  function MakeBlock(grid: Grid, i: nat, d: nat): Block
    requires i < d < |grid|
  {
    Block(LabelValue(grid[i], ["empcode"], 6), LabelValue(grid[i], ["name"], 6),
          LabelValue(grid[i], DeptKeys, 6), MonthValue(grid, i),
          Records(grid, DayCols(grid[d], |grid[d]|), WeekdayRow(grid, d), ScanLabels(grid, d)), i, d)
  }

  /** Where the scan resumes after a block: two rows below the Status row, else below the day row. */
  function NextCursor(grid: Grid, d: nat): (r: nat)
    requires d < |grid|
    ensures d + 2 <= r <= |grid| + 1
  {
    var labels := ScanLabels(grid, d);
    ScanLabelsSpec(grid, d, StatusRole);
    assert labels.Get(StatusRole) == labels.statusRow;
    labels.statusRow.GetOr(d) + 2
  }

  /** The blocks the header-row branch of `parse_mva_blocks` emits at cursor i: none without a day row. */
  function HeaderEmits(grid: Grid, i: nat): seq<Block>
    requires i < |grid|
  {
    match DayRowSearch(grid, i)
    case None => []
    case Some(d) => [MakeBlock(grid, i, d)]
  }

  /** Where the header-row branch moves the cursor: past the block, or one row on without a day row. */
  function HeaderNext(grid: Grid, i: nat): (r: nat)
    requires i < |grid|
    ensures i < r
  {
    match DayRowSearch(grid, i)
    case None => i + 1
    case Some(d) => NextCursor(grid, d)
  }

  /** `parse_mva_blocks` from cursor i on, as a recursive function. */
  function Scan(grid: Grid, i: nat): seq<Block>
    decreases |grid| - i
  {
    if i >= |grid| then []
    else if !IsHeaderRow(grid[i]) then Scan(grid, i + 1)
    else HeaderEmits(grid, i) + Scan(grid, HeaderNext(grid, i))
  }

  /** A row that is not a header is skipped. */
  lemma ScanSkip(grid: Grid, i: nat)
    requires i < |grid| && !IsHeaderRow(grid[i])
    ensures Scan(grid, i) == Scan(grid, i + 1)
  {
  }

  /** A header row emits what its step emits and resumes where the step leaves the cursor. */
  lemma ScanHeader(grid: Grid, i: nat)
    requires i < |grid| && IsHeaderRow(grid[i])
    ensures Scan(grid, i) == HeaderEmits(grid, i) + Scan(grid, HeaderNext(grid, i))
  {
  }

  /** The employee fields read from the header row (the month possibly from the row below). */
  method ReadHeader(grid: Grid, i: nat) returns (empcode: string, name: string, dept: string, month: string)
    requires i < |grid|
    ensures empcode == LabelValue(grid[i], ["empcode"], 6) && name == LabelValue(grid[i], ["name"], 6)
    ensures dept == LabelValue(grid[i], DeptKeys, 6) && month == MonthValue(grid, i)
  {
    var row := grid[i];
    empcode := FindLabelValue(row, ["empcode"]);
    name := FindLabelValue(row, ["name"]);
    dept := FindLabelValue(row, DeptKeys);
    month := FindLabelValue(row, MonthKeys);
    if month == "" && i + 1 < |grid| {
      month := FindLabelValue(grid[i + 1], MonthKeys);
    }
  }

  /** The day-row part of a block: its daily records, and the cursor after the block. */
  method ReadDays(grid: Grid, ncols: nat, d: nat) returns (daily: seq<DailyRecord>, next: nat)
    requires Rectangular(grid, ncols) && ncols > 0 && d < |grid|
    ensures daily == Records(grid, DayCols(grid[d], |grid[d]|), WeekdayRow(grid, d), ScanLabels(grid, d))
    ensures next == NextCursor(grid, d)
  {
    var weekdayRow := if d + 1 < |grid| then Some(d + 1) else None;
    var start := if weekdayRow.Some? then d + 2 else d + 1;
    assert start == LabelStart(grid, d) && weekdayRow == WeekdayRow(grid, d);
    var labels := BindLabelRows(grid, ncols, start, Min(start + 12, |grid|));
    assert labels == ScanLabels(grid, d);
    var cols := DayColumns(grid[d]);
    daily := BuildDailyRecords(grid, cols, weekdayRow, labels);
    next := labels.statusRow.GetOr(d) + 2;
  }

  /** The header-row branch of `parse_mva_blocks`. */
  method ReadBlock(grid: Grid, ncols: nat, i: nat) returns (emitted: seq<Block>, next: nat)
    requires Rectangular(grid, ncols) && i < |grid|
    ensures emitted == HeaderEmits(grid, i) && next == HeaderNext(grid, i)
  {
    var empcode, name, dept, month := ReadHeader(grid, i);
    var dayRow := FindDayRow(grid, i);
    if dayRow.None? {
      return [], i + 1;
    }
    var d := dayRow.value;
    var daily;
    daily, next := ReadDays(grid, ncols, d);
    emitted := [Block(empcode, name, dept, month, daily, i, d)];
  }

  /** One turn of the cursor loop of `parse_mva_blocks`, at row i. */
  method Advance(grid: Grid, ncols: nat, i: nat) returns (emitted: seq<Block>, next: nat)
    requires Rectangular(grid, ncols) && i < |grid|
    ensures i < next && emitted + Scan(grid, next) == Scan(grid, i)
  {
    var rowJoin := Join(CleanRow(grid[i]), " ");
    if Contains(Lower(rowJoin), "empcode") {
      assert IsHeaderRow(grid[i]);
      emitted, next := ReadBlock(grid, ncols, i);
      ScanHeader(grid, i);
    } else {
      ScanSkip(grid, i);
      emitted, next := [], i + 1;
    }
  }

  /** `parse_mva_blocks`: the cursor loop; the cursor only moves forward. */
  method ParseMvaBlocks(grid: Grid, ncols: nat) returns (blocks: seq<Block>)
    requires Rectangular(grid, ncols)
    ensures blocks == Scan(grid, 0)
  {
    blocks := [];
    var i := 0;
    while i < |grid|
      invariant blocks + Scan(grid, i) == Scan(grid, 0)
      decreases |grid| - i
    {
      var emitted, next := Advance(grid, ncols, i);
      assert blocks + emitted + Scan(grid, next) == blocks + (emitted + Scan(grid, next));
      blocks := blocks + emitted;
      i := next;
    }
  }

  /** What every emitted block satisfies. */
  predicate WellFormed(b: Block, nrows: nat)
  {
    10 <= |b.daily| && (forall r :: r in b.daily ==> 1 <= r.day <= 31)
    && b.headerRow < b.dayRow <= b.headerRow + 14 && b.dayRow < nrows
  }

  /** A block built on a day row has at least 10 records with days 1..31. */
  lemma MakeBlockWellFormed(grid: Grid, i: nat, d: nat)
    requires i < d < |grid| && d <= i + 14 && IsDayRow(grid[d])
    ensures WellFormed(MakeBlock(grid, i, d), |grid|)
  {
    var row := grid[d];
    var cols := DayCols(row, |row|);
    DayColsOfDayRow(row, |row|);
    DayColsOrdered(row, |row|);
    assert |cols| >= 10;
    var daily := Records(grid, cols, WeekdayRow(grid, d), ScanLabels(grid, d));
    RecordDays(grid, cols, WeekdayRow(grid, d), ScanLabels(grid, d));
    forall r | r in daily ensures 1 <= r.day <= 31 {
      var k :| 0 <= k < |daily| && daily[k] == r;
      assert r.day == cols[k].1;
    }
    assert MakeBlock(grid, i, d).daily == daily;
  }

  /** A well-formed block put in front of a well-formed tail that starts two rows below its day row. */
  lemma ConsWellFormed(b: Block, rest: seq<Block>, nrows: nat, i: nat, next: nat)
    requires WellFormed(b, nrows) && b.headerRow >= i && b.dayRow + 2 <= next
    requires forall k :: 0 <= k < |rest| ==> WellFormed(rest[k], nrows) && rest[k].headerRow >= next
    requires forall a, c :: 0 <= a < c < |rest| ==> rest[a].dayRow + 2 <= rest[c].headerRow
    ensures forall k :: 0 <= k < |[b] + rest| ==> WellFormed(([b] + rest)[k], nrows) && ([b] + rest)[k].headerRow >= i
    ensures forall a, c :: 0 <= a < c < |[b] + rest| ==> ([b] + rest)[a].dayRow + 2 <= ([b] + rest)[c].headerRow
  {
    var s := [b] + rest;
    forall a, c | 0 <= a < c < |s| ensures s[a].dayRow + 2 <= s[c].headerRow {
      if a == 0 {
        assert s[c] == rest[c - 1];
        assert WellFormed(rest[c - 1], nrows);
      } else {
        assert s[a] == rest[a - 1] && s[c] == rest[c - 1];
      }
    }
  }

  /**
   * Every block of the scan from cursor i is well formed and starts at or after i,
   * and each next block's header lies at least two rows below the previous day row.
   */
  lemma {:induction false} ScanWellFormed(grid: Grid, i: nat)
    ensures forall k :: 0 <= k < |Scan(grid, i)| ==> WellFormed(Scan(grid, i)[k], |grid|) && Scan(grid, i)[k].headerRow >= i
    ensures forall a, b :: 0 <= a < b < |Scan(grid, i)| ==> Scan(grid, i)[a].dayRow + 2 <= Scan(grid, i)[b].headerRow
    decreases |grid| - i
  {
    if i < |grid| {
      if !IsHeaderRow(grid[i]) {
        ScanSkip(grid, i);
        ScanWellFormed(grid, i + 1);
      } else if DayRowSearch(grid, i).None? {
        ScanHeader(grid, i);
        ScanWellFormed(grid, i + 1);
      } else {
        var d := DayRowSearch(grid, i).value;
        ScanHeader(grid, i);
        var next := NextCursor(grid, d);
        ScanWellFormed(grid, next);
        DayRowSearchSpec(grid, i);
        MakeBlockWellFormed(grid, i, d);
        ConsWellFormed(MakeBlock(grid, i, d), Scan(grid, next), |grid|, i, next);
      }
    }
  }

  /** The blocks come out in strictly increasing header order. */
  lemma HeadersIncrease(grid: Grid)
    ensures forall a, b :: 0 <= a < b < |Scan(grid, 0)| ==> Scan(grid, 0)[a].headerRow < Scan(grid, 0)[b].headerRow
  {
    ScanWellFormed(grid, 0);
  }
}
