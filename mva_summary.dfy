/**
 * The grading half of the MVA attendance tool: `calculate_fm_status`, the
 * decision table that turns a month's counters into "FM+1", "FM" or "FM-n",
 * and the per-record status loop of `process_attendance_data`, which
 * classifies each status by first match and collects the overtime figures.
 *
 * Present and absent days are counted in half days (a half day adds half a
 * present and half an absent day); the overtime figures are exact rationals.
 */
module MvaSummary {

  import opened Wrappers
  import opened Text
  import opened Numerals
  import opened Search
  import opened MvaBlocks

  // ---------------------------------------------------------------------
  // The FM grade

  /** The outcome of `calculate_fm_status`; the penalties are absences and leaves beyond the first. */
  datatype Grade = PlusOne | Full | MinusAbsent(excessHalves: nat) | MinusLeave(excess: nat)

  /** The FM+1 test: a clean month with 27+ days and 4 week-offs, 31 days, or every working day present. */
  predicate PlusOneEarned(presentHalves: nat, halfDays: nat, leaves: nat, absentHalves: nat,
                          weekOffs: nat, totalWorkingDays: int)
  {
    halfDays == 0 && leaves == 0 && absentHalves == 0
    && ((presentHalves >= 54 && weekOffs == 4) || presentHalves == 62
        || presentHalves == 2 * (totalWorkingDays - weekOffs))
  }

  /**
   * `calculate_fm_status` as a grade: FM+1 for a clean month; else exactly one
   * absence or exactly one leave is FM; else absences beyond one cost before
   * leaves beyond one; anything else is FM.
   */
  function FmGrade(presentHalves: nat, halfDays: nat, leaves: nat, absentHalves: nat,
                   weekOffs: nat, totalWorkingDays: int): (g: Grade)
    ensures g == PlusOne <==> PlusOneEarned(presentHalves, halfDays, leaves, absentHalves, weekOffs, totalWorkingDays)
    ensures g == Full <==> !PlusOneEarned(presentHalves, halfDays, leaves, absentHalves, weekOffs, totalWorkingDays)
                           && absentHalves <= 2 && leaves <= 1
    ensures g.MinusAbsent? <==> !PlusOneEarned(presentHalves, halfDays, leaves, absentHalves, weekOffs, totalWorkingDays)
                                && absentHalves > 2
    ensures g.MinusLeave? <==> !PlusOneEarned(presentHalves, halfDays, leaves, absentHalves, weekOffs, totalWorkingDays)
                               && absentHalves <= 2 && leaves > 1
    ensures g.MinusAbsent? ==> g.excessHalves + 2 == absentHalves
    ensures g.MinusLeave? ==> g.excess + 1 == leaves
  {
    var clean := halfDays == 0 && leaves == 0 && absentHalves == 0;
    if clean && ((presentHalves >= 54 && weekOffs == 4) || presentHalves == 62) then PlusOne
    else if clean && presentHalves == 2 * (totalWorkingDays - weekOffs) then PlusOne
    else if absentHalves == 2 && leaves == 0 then Full
    else if absentHalves == 0 && leaves == 1 then Full
    else if absentHalves > 2 then MinusAbsent(absentHalves - 2)
    else if leaves > 1 then MinusLeave(leaves - 1)
    else Full
  }

  /**
   * The grade as text. `absentIsFloat` says whether the absent count is a
   * Python float (it becomes one once a half day adds 0.5), which decides how
   * `absent_days - 1` prints.
   */
  function GradeText(g: Grade, absentIsFloat: bool): string
  {
    match g
    case PlusOne => "FM+1"
    case Full => "FM"
    case MinusAbsent(e) => "FM-" + (if absentIsFloat then HalvesText(e) else NatToString(e / 2))
    case MinusLeave(e) => "FM-" + NatToString(e)
  }

  /** Python's repr of the float h / 2 for h >= 0. */
  function HalvesText(h: nat): string
  {
    QuartersText(2 * h)
  }

  /** Every grade text begins with "FM"; only the penalties continue with "-". */
  lemma GradeTextPrefix(g: Grade, absentIsFloat: bool)
    ensures StartsWith(GradeText(g, absentIsFloat), "FM")
    ensures |GradeText(g, absentIsFloat)| > 2 && GradeText(g, absentIsFloat)[2] == '-'
            <==> g.MinusAbsent? || g.MinusLeave?
  {
  }

  /**
   * `calculate_fm_status` called with whole-day counts (no half days folded
   * into present and absent), its absent count a Python int.
   */
  function FmStatusText(presentDays: nat, halfDays: nat, leaves: nat, absentDays: nat, weekOffs: nat,
                        totalWorkingDays: int): string
  {
    GradeText(FmGrade(2 * presentDays, halfDays, leaves, 2 * absentDays, weekOffs, totalWorkingDays), false)
  }

  /**
   * The decision table on whole days: FM+1 for a clean month with 27+ days
   * and 4 week-offs, 31 days, or every working day present; else one absence
   * or one leave is FM; else "FM-" and the absences beyond one, checked before
   * the leaves beyond one; else FM.
   */
  lemma FmStatusTextSpec(presentDays: nat, halfDays: nat, leaves: nat, absentDays: nat, weekOffs: nat,
                         totalWorkingDays: int)
    ensures var clean := halfDays == 0 && leaves == 0 && absentDays == 0;
      var plusOne := clean && ((presentDays >= 27 && weekOffs == 4) || presentDays == 31
                               || presentDays == totalWorkingDays - weekOffs);
      var r := FmStatusText(presentDays, halfDays, leaves, absentDays, weekOffs, totalWorkingDays);
      && (r == "FM+1" <==> plusOne)
      && (!plusOne && absentDays > 1 ==> r == "FM-" + NatToString(absentDays - 1))
      && (!plusOne && absentDays <= 1 && leaves > 1 ==> r == "FM-" + NatToString(leaves - 1))
      && (!plusOne && absentDays <= 1 && leaves <= 1 ==> r == "FM")
  {
    var g := FmGrade(2 * presentDays, halfDays, leaves, 2 * absentDays, weekOffs, totalWorkingDays);
    GradeTextPrefix(g, false);
    if g.MinusAbsent? {
      assert g.excessHalves / 2 == absentDays - 1;
      assert "FM+1"[2] == '+';
    } else if g.MinusLeave? {
      assert "FM+1"[2] == '+';
    }
  }

  /** "FM-n" for leaves beyond one: the figure after "FM-" reads back as n. */
  lemma LeavePenaltyReadsBack(e: nat, absentIsFloat: bool)
    ensures ParseInt(GradeText(MinusLeave(e), absentIsFloat)[3..]) == Some(e)
  {
    assert GradeText(MinusLeave(e), absentIsFloat)[3..] == NatToString(e);
    ParseNatRoundTrip(e);
  }

  /** With whole-day absences the figure after "FM-" reads back as the whole days beyond one. */
  lemma AbsentPenaltyReadsBackInt(e: nat)
    requires e % 2 == 0
    ensures ParseInt(GradeText(MinusAbsent(e), false)[3..]) == Some(e / 2)
  {
    assert GradeText(MinusAbsent(e), false)[3..] == NatToString(e / 2);
    ParseNatRoundTrip(e / 2);
  }

  /** With a float absent count the figure after "FM-" reads back, through `float`, as e / 2 days. */
  lemma AbsentPenaltyReadsBackFloat(e: nat)
    ensures ParseDecimal(GradeText(MinusAbsent(e), true)[3..]).Some?
    ensures ParseDecimal(GradeText(MinusAbsent(e), true)[3..]).value.Value() == e as real / 2.0
  {
    var t := QuartersText(2 * e);
    assert GradeText(MinusAbsent(e), true) == "FM-" + t;
    assert ("FM-" + t)[3..] == t;
    QuartersTextRoundTrip(2 * e);
    assert (2 * e) as real / 4.0 == e as real / 2.0;
  }

  // ---------------------------------------------------------------------
  // Status classification

  datatype StatusClass = Present | HalfDay | Leave | WeekOff | Absent | Unclassified

  /** First match wins: P, then H, then L, then WO (all substrings), then exactly "A". */
  function ClassifyStatus(status: string): StatusClass
  {
    if Contains(status, "P") then Present
    else if Contains(status, "H") then HalfDay
    else if Contains(status, "L") then Leave
    else if Contains(status, "WO") then WeekOff
    else if status == "A" then Absent
    else Unclassified
  }

  /** A one-letter needle occurs in s exactly when some character of s is that letter. */
  lemma {:induction false} ContainsChar(s: string, c: char)
    ensures Contains(s, [c]) <==> c in s
    decreases |s|
  {
    if |s| > 0 {
      ContainsChar(s[1..], c);
      assert s == [s[0]] + s[1..];
    }
  }

  /**
   * The classes by what the status holds: any P is present; any H without a
   * P is a half day; only the status "A" itself is absent.
   */
  lemma ClassifyStatusSpec(status: string)
    ensures ClassifyStatus(status) == Present <==> 'P' in status
    ensures ClassifyStatus(status) == HalfDay <==> 'P' !in status && 'H' in status
    ensures ClassifyStatus(status) == Leave <==> 'P' !in status && 'H' !in status && 'L' in status
    ensures ClassifyStatus(status) == WeekOff <==> 'P' !in status && 'H' !in status && 'L' !in status && Contains(status, "WO")
    ensures ClassifyStatus(status) == Absent <==> status == "A"
  {
    ContainsChar(status, 'P');
    ContainsChar(status, 'H');
    ContainsChar(status, 'L');
    if status == "A" {
      assert !Contains(status[1..], "WO");
      assert !Contains(status, "WO");
    }
  }

  // ---------------------------------------------------------------------
  // Overtime figures

  /** The hours of an "OT" status: the first word after the last "OT:" (or of the whole status), if a number. */
  function OtHoursOf(status: string): Option<real>
  {
    if !Contains(status, "OT") then None
    else match FirstToken(AfterLast(status, "OT:"))
      case None => None
      case Some(tok) =>
        match ParseDecimal(tok)
        case None => None
        case Some(v) => Some(v.Value())
  }

  /** `str.isdigit()` for ASCII text: non-empty and all digits. */
  predicate IsDigitText(s: string)
  {
    |s| > 0 && AllDigits(s)
  }

  /** The TOTALOT figure of a status: the stripped text after the last "TOTALOT:", digits and points only. */
  function TotalOtOf(status: string): Option<real>
  {
    if !Contains(Upper(status), "TOTALOT") then None
    else
      var v := Trim(AfterLast(Upper(status), "TOTALOT:"));
      if !IsDigitText(RemoveChar(v, '.')) then None
      else match ParseDecimal(v)
        case None => None
        case Some(d) => Some(d.Value())
  }

  /** A TOTALOT figure is never negative: the text it is read from holds no sign. */
  lemma TotalOtNonNegative(status: string)
    ensures TotalOtOf(status).Some? ==> TotalOtOf(status).value >= 0.0
  {
    if TotalOtOf(status).Some? {
      var after := AfterLast(Upper(status), "TOTALOT:");
      TrimIdempotent(after);
      UnsignedNumeral(Trim(after));
    }
  }

  /** Digits and points only, once stripped, parse as a value that is not negative. */
  lemma UnsignedNumeral(v: string)
    requires IsDigitText(RemoveChar(v, '.')) && Trim(v) == v && ParseDecimal(v).Some?
    ensures ParseDecimal(v).value.Value() >= 0.0
  {
    ParseDecimalSign(v);
    assert |v| > 0;
    RemoveCharKeeps(v, '.', 0);
    assert v[0] != '-';
    DecimalNotNegative(ParseDecimal(v).value);
  }

  /** `s.replace(c, "")` keeps every other character. */
  lemma {:induction false} RemoveCharKeeps(s: string, c: char, k: nat)
    requires k < |s|
    ensures s[k] == c || s[k] in RemoveChar(s, c)
    decreases |s|
  {
    if k > 0 {
      RemoveCharKeeps(s[1..], c, k - 1);
    }
  }

  // ---------------------------------------------------------------------
  // The per-block tally of `process_attendance_data`

  /** The day counters; present and absent days are counted in half days. */
  datatype Counts = Counts(presentHalves: nat, halfDays: nat, leaves: nat, weekOffs: nat, absentHalves: nat)

  /** The running state of the record loop: the day counters and the two overtime figures. */
  datatype Tally = Tally(counts: Counts, otSum: real, sheetOt: real)

  const NoTally := Tally(Counts(0, 0, 0, 0, 0), 0.0, 0.0)

  /** What the record loop reads off one status: its class, the OT hours it adds, its TOTALOT figure. */
  datatype Reading = Reading(cls: StatusClass, ot: real, sheet: Option<real>)

  /** `str(status).strip().upper()`. */
  function NormalStatus(raw: string): string
  {
    Upper(Trim(raw))
  }

  /** The OT hours a status adds to the running sum (nothing when it has none). */
  function OtAdded(status: string): real
  {
    match OtHoursOf(status) case None => 0.0 case Some(h) => h
  }

  /** The reading of one record's raw status. */
  function ReadStatus(raw: string): Reading
  {
    var status := NormalStatus(raw);
    Reading(ClassifyStatus(status), OtAdded(status), TotalOtOf(status))
  }

  /** The reading of a record. */
  function RecordReading(): DailyRecord -> Reading
  {
    (r: DailyRecord) => ReadStatus(r.status)
  }

  /** The readings of the records, in order. */
  function Readings(daily: seq<DailyRecord>): (rs: seq<Reading>)
    ensures |rs| == |daily|
  {
    Mapped(daily, RecordReading())
  }

  /** The counter update of one classified status. */
  function CountStep(c: Counts, cls: StatusClass): Counts
  {
    match cls
    case Present => c.(presentHalves := c.presentHalves + 2)
    case HalfDay => c.(halfDays := c.halfDays + 1, presentHalves := c.presentHalves + 1,
                       absentHalves := c.absentHalves + 1)
    case Leave => c.(leaves := c.leaves + 1)
    case WeekOff => c.(weekOffs := c.weekOffs + 1)
    case Absent => c.(absentHalves := c.absentHalves + 2)
    case Unclassified => c
  }

  /** One record's effect: its class's counter, its OT hours, and its TOTALOT figure if it has one. */
  function Apply(t: Tally, r: Reading): Tally
  {
    Tally(CountStep(t.counts, r.cls), t.otSum + r.ot, r.sheet.GetOr(t.sheetOt))
  }

  /** The state after the first n readings, in order. */
  function TallyOf(rs: seq<Reading>, n: nat): Tally
    requires n <= |rs|
  {
    if n == 0 then NoTally else Apply(TallyOf(rs, n - 1), rs[n - 1])
  }

  /**
   * Each record adds at most one day: a present, half, leave, week-off or
   * absent day, a half day splitting its day between present and absent;
   * and a half day was counted exactly when some reading is classed as one.
   */
  lemma {:induction false} TallyBounds(rs: seq<Reading>, n: nat)
    requires n <= |rs|
    ensures var c := TallyOf(rs, n).counts;
      c.presentHalves + c.absentHalves + 2 * (c.leaves + c.weekOffs) <= 2 * n
      && c.halfDays <= c.presentHalves && c.halfDays <= c.absentHalves
    ensures TallyOf(rs, n).counts.halfDays > 0 <==> exists k :: 0 <= k < n && rs[k].cls == HalfDay
    decreases n
  {
    if n > 0 {
      TallyBounds(rs, n - 1);
      if rs[n - 1].cls == HalfDay {
        assert exists k :: 0 <= k < n && rs[k].cls == HalfDay;
      }
      if exists k :: 0 <= k < n && rs[k].cls == HalfDay {
        var k :| 0 <= k < n && rs[k].cls == HalfDay;
        if k < n - 1 {
          assert exists j :: 0 <= j < n - 1 && rs[j].cls == HalfDay;
        }
      }
    }
  }

  /** The last TOTALOT figure among the first n readings, if any. */
  function LastSheetOt(rs: seq<Reading>, n: nat): Option<real>
    requires n <= |rs|
  {
    if n == 0 then None
    else if rs[n - 1].sheet.Some? then rs[n - 1].sheet
    else LastSheetOt(rs, n - 1)
  }

  /** `LastSheetOt` is the figure of the last reading that has one; None when none has. */
  lemma {:induction false} LastSheetOtSpec(rs: seq<Reading>, n: nat)
    requires n <= |rs|
    ensures LastSheetOt(rs, n).None? <==> forall k :: 0 <= k < n ==> rs[k].sheet.None?
    ensures LastSheetOt(rs, n).Some? ==>
      exists k :: 0 <= k < n && rs[k].sheet == LastSheetOt(rs, n) && forall j :: k < j < n ==> rs[j].sheet.None?
    decreases n
  {
    if n > 0 && rs[n - 1].sheet.None? {
      LastSheetOtSpec(rs, n - 1);
      if LastSheetOt(rs, n).Some? {
        var k :| 0 <= k < n - 1 && rs[k].sheet == LastSheetOt(rs, n - 1) && forall j :: k < j < n - 1 ==> rs[j].sheet.None?;
        assert forall j :: k < j < n ==> rs[j].sheet.None?;
      }
    } else if n > 0 {
      assert rs[n - 1].sheet == LastSheetOt(rs, n);
    }
  }

  /** The sheet figure is the last TOTALOT value (0 if none): later values overwrite earlier ones. */
  lemma {:induction false} SheetOtIsLast(rs: seq<Reading>, n: nat)
    requires n <= |rs|
    ensures TallyOf(rs, n).sheetOt == LastSheetOt(rs, n).GetOr(0.0)
    decreases n
  {
    if n > 0 {
      SheetOtIsLast(rs, n - 1);
    }
  }

  /** The counter update of the record loop of `process_attendance_data`. */
  method CountRecord(c: Counts, status: string) returns (d: Counts)
    ensures d == CountStep(c, ClassifyStatus(status))
  {
    d := c;
    if Contains(status, "P") {
      d := d.(presentHalves := d.presentHalves + 2);
    } else if Contains(status, "H") {
      d := d.(halfDays := d.halfDays + 1, presentHalves := d.presentHalves + 1, absentHalves := d.absentHalves + 1);
    } else if Contains(status, "L") {
      d := d.(leaves := d.leaves + 1);
    } else if Contains(status, "WO") {
      d := d.(weekOffs := d.weekOffs + 1);
    } else if status == "A" {
      d := d.(absentHalves := d.absentHalves + 2);
    }
  }

  /** One pass of the record loop of `process_attendance_data`. */
  method TallyRecord(t: Tally, rawStatus: string) returns (u: Tally)
    ensures u == Apply(t, ReadStatus(rawStatus))
  {
    var status := Upper(Trim(rawStatus));
    var counts := CountRecord(t.counts, status);
    var otSum := t.otSum;
    var ot := OtHoursOf(status);
    if ot.Some? {
      otSum := otSum + ot.value;
    }
    var sheetOt := t.sheetOt;
    var sheet := TotalOtOf(status);
    if sheet.Some? {
      sheetOt := sheet.value;
    }
    u := Tally(counts, otSum, sheetOt);
  }

  /** The pass of the record loop over record k. */
  method TallyRecordAt(daily: seq<DailyRecord>, k: nat, t: Tally) returns (u: Tally)
    requires k < |daily|
    ensures u == Apply(t, Readings(daily)[k])
  {
    u := TallyRecord(t, daily[k].status);
    MappedAt(daily, RecordReading(), k);
  }

  /** The record loop of `process_attendance_data` for one block. */
  method TallyRecords(daily: seq<DailyRecord>) returns (t: Tally)
    ensures t == TallyOf(Readings(daily), |daily|)
  {
    t := NoTally;
    var k := 0;
    ghost var rs := Readings(daily);
    while k < |daily|
      invariant 0 <= k <= |daily|
      invariant t == TallyOf(rs, k)
    {
      t := TallyRecordAt(daily, k, t);
      k := k + 1;
    }
  }

  // ---------------------------------------------------------------------
  // The output rows

  /** One output row of `process_attendance_data` (the OT figure unrounded). */
  datatype AttendanceRow = AttendanceRow(employeeId: string, employeeName: string, department: string,
                                         month: string, presentHalves: nat, halfDays: nat, leaves: nat,
                                         weekOffs: nat, absentHalves: nat, otHours: real, fmStatus: string)

  /** The sheet's TOTALOT figure when positive, else the sum of the OT figures. */
  function OtTotal(t: Tally): real
  {
    if t.sheetOt > 0.0 then t.sheetOt else t.otSum
  }

  /** The grade text of a tally, for a month of `totalWorkingDays` working days. */
  function FmStatusOf(t: Tally, totalWorkingDays: int): string
  {
    var c := t.counts;
    GradeText(FmGrade(c.presentHalves, c.halfDays, c.leaves, c.absentHalves, c.weekOffs, totalWorkingDays),
              c.halfDays > 0)
  }

  function SummarizeBlock(b: Block, totalWorkingDays: int): AttendanceRow
  {
    var t := TallyOf(Readings(b.daily), |b.daily|);
    var c := t.counts;
    AttendanceRow(b.empcode, b.name, b.dept, b.month, c.presentHalves, c.halfDays, c.leaves, c.weekOffs,
                  c.absentHalves, OtTotal(t), FmStatusOf(t, totalWorkingDays))
  }

  /** A row's day counts never exceed its block's records, and its status is an FM grade. */
  lemma SummarizeBlockBounds(b: Block, totalWorkingDays: int)
    ensures var r := SummarizeBlock(b, totalWorkingDays);
      r.presentHalves + r.absentHalves + 2 * (r.leaves + r.weekOffs) <= 2 * |b.daily|
      && StartsWith(r.fmStatus, "FM")
  {
    TallyBounds(Readings(b.daily), |b.daily|);
    var c := TallyOf(Readings(b.daily), |b.daily|).counts;
    GradeTextPrefix(FmGrade(c.presentHalves, c.halfDays, c.leaves, c.absentHalves, c.weekOffs, totalWorkingDays),
                    c.halfDays > 0);
  }

  /** One block's row, as the loop body of `process_attendance_data` builds it. */
  method SummarizeOne(b: Block, totalWorkingDays: int) returns (row: AttendanceRow)
    ensures row == SummarizeBlock(b, totalWorkingDays)
  {
    var t := TallyRecords(b.daily);
    var c := t.counts;
    var g := FmGrade(c.presentHalves, c.halfDays, c.leaves, c.absentHalves, c.weekOffs, totalWorkingDays);
    var fm := GradeText(g, c.halfDays > 0);
    var ot := if t.sheetOt > 0.0 then t.sheetOt else t.otSum;
    row := AttendanceRow(b.empcode, b.name, b.dept, b.month, c.presentHalves, c.halfDays, c.leaves,
                         c.weekOffs, c.absentHalves, ot, fm);
  }

  /**
   * `process_attendance_data`: one row per block, in block order. The
   * working-day count of each block's month is a parameter.
   */
  method ProcessAttendanceData(blocks: seq<Block>, workingDays: seq<int>) returns (rows: seq<AttendanceRow>)
    requires |workingDays| == |blocks|
    ensures |rows| == |blocks|
    ensures forall k :: 0 <= k < |blocks| ==> rows[k] == SummarizeBlock(blocks[k], workingDays[k])
  {
    rows := [];
    var k := 0;
    while k < |blocks|
      invariant 0 <= k <= |blocks|
      invariant |rows| == k
      invariant forall j :: 0 <= j < k ==> rows[j] == SummarizeBlock(blocks[j], workingDays[j])
    {
      var row := SummarizeOne(blocks[k], workingDays[k]);
      rows := rows + [row];
      k := k + 1;
    }
  }
}
