/**
 * The monthly deduction engine: for each attendance block, the shift the
 * employee works, the exact-code status buckets, the per-day deductions
 * (the split-shift rule and the lateness rule) counted in quarter-days, the
 * grade with its deduction suffix, and the upserts of the payroll summary
 * and of the employee's shift profile.
 *
 * Times are minutes after midnight and cuts are whole quarter-days, so every
 * figure is an integer; the source's floats of 0.25 are exact multiples and
 * print as `QuartersText` shows. The database collections are given as maps.
 */
module MonthlyPayroll {

  import opened Wrappers
  import opened Text
  import opened Numerals
  import opened Search
  import opened MvaBlocks
  import opened MongoHelpers
  import opened MvaSummary

  // ---------------------------------------------------------------------
  // Clock times

  /**
   * `datetime.strptime(text, "%H:%M")` as minutes after midnight: one or two
   * digits of hour up to 23, a colon, one or two digits of minute up to 59,
   * and nothing else.
   */
  function ParseClock(s: string): (r: Option<int>)
    ensures r.Some? ==> 0 <= r.value < 1440
  {
    match IndexOfChar(s, ':')
    case None => None
    case Some(k) =>
      var h, m := s[..k], s[k + 1..];
      if 1 <= |h| <= 2 && 1 <= |m| <= 2 && AllDigits(h) && AllDigits(m) && DigitsValue(h) <= 23 && DigitsValue(m) <= 59
      then Some(DigitsValue(h) * 60 + DigitsValue(m))
      else None
  }

  /** Every minute of the day, written as "HH:MM", parses back to itself. */
  lemma ClockRoundTrip(t: nat)
    requires t < 1440
    ensures ParseClock(Pad2(t / 60) + ":" + Pad2(t % 60)) == Some(t)
  {
    var h, m := Pad2(t / 60), Pad2(t % 60);
    Pad2Digits(t / 60);
    Pad2Digits(t % 60);
    var s := h + ":" + m;
    assert s[2] == ':';
    assert s[..2] == h && s[3..] == m;
    assert forall i :: 0 <= i < 2 ==> s[i] == h[i] && IsDigit(h[i]);
    var k := IndexOfChar(s, ':');
    assert k.Some? && k.value >= 2;
    assert s[..k.value][..2] == h;
  }

  /** Minutes worked from in to out, out being on the next day when it is earlier than in. */
  function WorkedMinutes(inMinutes: int, outMinutes: int): (w: int)
    requires 0 <= inMinutes < 1440 && 0 <= outMinutes < 1440
    ensures 0 <= w < 1440
    ensures (w + inMinutes) % 1440 == outMinutes
  {
    if outMinutes < inMinutes then outMinutes + 1440 - inMinutes else outMinutes - inMinutes
  }

  // ---------------------------------------------------------------------
  // Shift choice

  /** The collections the engine reads: assignments by employee, employees' default shifts, shift masters. */
  datatype Lookups = Lookups(assignmentOf: map<string, Option<string>>, defaultShiftOf: map<string, Option<string>>,
                             shifts: map<string, ShiftMaster>)

  /** What the engine takes from the employee's shift. */
  datatype ShiftSetup = ShiftSetup(code: Option<string>, shiftType: string, roleType: string,
                                   shiftIn: string, shiftOut: string)

  /** The shift code: the employee's assignment record if it has one, else the employee's default shift. */
  function ShiftCodeOf(empId: string, lk: Lookups): Option<string>
  {
    if empId in lk.assignmentOf then lk.assignmentOf[empId]
    else if empId in lk.defaultShiftOf then lk.defaultShiftOf[empId]
    else None
  }

  /** The shift type, the lower-cased description and the first interval's bounds of a code. */
  function SetupOf(code: Option<string>, shifts: map<string, ShiftMaster>): ShiftSetup
  {
    var info := if code.Some? && code.value in shifts then Some(shifts[code.value]) else None;
    var first := if info.Some? && |info.value.intervals| > 0 then Some(info.value.intervals[0]) else None;
    ShiftSetup(code,
               if code.None? || code.value == "" then "N/A" else code.value,
               if info.Some? then Lower(info.value.description) else "",
               if first.Some? then first.value.start else "",
               if first.Some? then first.value.end else "")
  }

  /**
   * An assignment record decides the code even when it names none; only
   * without one does the default shift count. Only the first interval of a
   * known shift gives the expected times, and a missing or empty code shows
   * as "N/A".
   */
  lemma ShiftChoiceSpec(empId: string, lk: Lookups)
    ensures var code := ShiftCodeOf(empId, lk);
      var setup := SetupOf(code, lk.shifts);
      && (empId in lk.assignmentOf ==> code == lk.assignmentOf[empId])
      && (empId !in lk.assignmentOf && empId in lk.defaultShiftOf ==> code == lk.defaultShiftOf[empId])
      && (empId !in lk.assignmentOf && empId !in lk.defaultShiftOf ==> code.None?)
      && (setup.shiftType == "N/A" <==> code.None? || code.value in {"", "N/A"})
      && (code.Some? && code.value != "" ==> setup.shiftType == code.value)
      && (setup.shiftIn != "" || setup.shiftOut != "" ==>
            code.Some? && code.value in lk.shifts && |lk.shifts[code.value].intervals| > 0
            && setup.shiftIn == lk.shifts[code.value].intervals[0].start
            && setup.shiftOut == lk.shifts[code.value].intervals[0].end)
  {
  }

  // ---------------------------------------------------------------------
  // Status buckets

  const PresentCodes: set<string> := {"P", "PR", "W", "WD"}
  const HalfCodes: set<string> := {"HD", "H", "1/2"}
  const LeaveCodes: set<string> := {"L", "LV", "LEAVE"}
  const WeekOffCodes: set<string> := {"WO", "W/O", "OFF"}
  const AbsentCodes: set<string> := {"A", "AB", "ABSENT"}

  /** A status as the engine compares it: stripped and upper-cased. */
  function StatusCode(status: string): string
  {
    Upper(Trim(status))
  }

  /** The status codes of the records that have a day. */
  function Statuses(daily: seq<DailyRecord>): (r: seq<string>)
    ensures |r| <= |daily|
    decreases |daily|
  {
    if daily == [] then []
    else
      var last := daily[|daily| - 1];
      Statuses(daily[..|daily| - 1]) + (if last.day != 0 then [StatusCode(last.status)] else [])
  }

  /** The number of entries of ss that are one of the codes. */
  function CountCodes(ss: seq<string>, codes: set<string>): nat
    decreases |ss|
  {
    if ss == [] then 0 else CountCodes(ss[..|ss| - 1], codes) + (if ss[|ss| - 1] in codes then 1 else 0)
  }

  /** The bucket counts of a block and the number of records with a day. */
  datatype Buckets = Buckets(presentDays: nat, halfDays: nat, leaves: nat, weekOffs: nat, absents: nat,
                             totalWorkingDays: nat)

  function BucketsOf(daily: seq<DailyRecord>): Buckets
  {
    var ss := Statuses(daily);
    Buckets(CountCodes(ss, PresentCodes), CountCodes(ss, HalfCodes), CountCodes(ss, LeaveCodes),
            CountCodes(ss, WeekOffCodes), CountCodes(ss, AbsentCodes), |ss|)
  }

  /** The five code sets are disjoint, so the five counts together count each status at most once. */
  lemma {:induction false} CodesCountOnce(ss: seq<string>)
    ensures CountCodes(ss, PresentCodes) + CountCodes(ss, HalfCodes) + CountCodes(ss, LeaveCodes)
            + CountCodes(ss, WeekOffCodes) + CountCodes(ss, AbsentCodes) <= |ss|
    decreases |ss|
  {
    if ss != [] {
      CodesCountOnce(ss[..|ss| - 1]);
    }
  }

  /** The buckets of a block sum to at most its working days, which are at most its records. */
  lemma BucketsBounded(daily: seq<DailyRecord>)
    ensures var b := BucketsOf(daily);
      b.presentDays + b.halfDays + b.leaves + b.weekOffs + b.absents <= b.totalWorkingDays <= |daily|
  {
    CodesCountOnce(Statuses(daily));
  }

  // ---------------------------------------------------------------------
  // Per-day deductions

  /** What one day adds: nothing, a quarter-day cut, or a late entry. */
  datatype Effect = NoEffect | QuarterCut | LateEntry

  /** More than 30 minutes late is a cut; more than 5 is a late entry. */
  function LateEffect(lateMinutes: int): Effect
  {
    if lateMinutes > 30 then QuarterCut else if lateMinutes > 5 then LateEntry else NoEffect
  }

  /**
   * The effect of one day: only a present day with both punches is examined,
   * and a punch or an expected start that does not parse leaves the day
   * without effect. A split shift worked under nine hours is a cut and is
   * not checked for lateness.
   */
  function DayEffect(d: DailyRecord, setup: ShiftSetup): Effect
  {
    var inTime, outTime := Trim(d.inTime), Trim(d.outTime);
    if inTime == "" || outTime == "" || StatusCode(d.status) !in PresentCodes then NoEffect
    else match (ParseClock(inTime), ParseClock(outTime))
      case (Some(i), Some(o)) =>
        if Contains(setup.roleType, "split") && WorkedMinutes(i, o) < 540 then QuarterCut
        else if setup.shiftIn == "" then NoEffect
        else (match ParseClock(setup.shiftIn)
              case Some(e) => LateEffect(i - e)
              case None => NoEffect)
      case _ => NoEffect
  }

  /**
   * A day has an effect only when it is present, both punches parse and,
   * outside the split rule, the expected start parses; then the split rule
   * decides first, and otherwise the minutes late against the expected start.
   */
  lemma DayEffectSpec(d: DailyRecord, setup: ShiftSetup)
    ensures var i, o := ParseClock(Trim(d.inTime)), ParseClock(Trim(d.outTime));
      var split := Contains(setup.roleType, "split");
      var r := DayEffect(d, setup);
      && (r != NoEffect ==> StatusCode(d.status) in PresentCodes && i.Some? && o.Some?)
      && (StatusCode(d.status) in PresentCodes && i.Some? && o.Some? ==>
            && (split && WorkedMinutes(i.value, o.value) < 540 ==> r == QuarterCut)
            && (!(split && WorkedMinutes(i.value, o.value) < 540) ==>
                  r == match ParseClock(setup.shiftIn) case Some(e) => LateEffect(i.value - e) case None => NoEffect))
  {
    var inTime, outTime := Trim(d.inTime), Trim(d.outTime);
    if inTime == "" {
      assert ParseClock(inTime).None?;
    }
    if outTime == "" {
      assert ParseClock(outTime).None?;
    }
    if setup.shiftIn == "" {
      assert ParseClock(setup.shiftIn).None?;
    }
  }

  /** The late thresholds are strict: 30 minutes is still an entry, 31 a cut, 5 nothing. */
  lemma LateThresholds(lateMinutes: int)
    ensures LateEffect(lateMinutes) == QuarterCut <==> lateMinutes > 30
    ensures LateEffect(lateMinutes) == LateEntry <==> 5 < lateMinutes <= 30
    ensures LateEffect(lateMinutes) == NoEffect <==> lateMinutes <= 5
  {
  }

  /** The effect of every day of a block, in order. */
  function DayEffects(daily: seq<DailyRecord>, setup: ShiftSetup): seq<Effect>
  {
    Mapped(daily, (d: DailyRecord) => DayEffect(d, setup))
  }

  /** The cuts and the late entries among some effects. */
  function Tally(effects: seq<Effect>): (nat, nat)
    decreases |effects|
  {
    if effects == [] then (0, 0)
    else
      var prev := Tally(effects[..|effects| - 1]);
      match effects[|effects| - 1]
      case NoEffect => prev
      case QuarterCut => (prev.0 + 1, prev.1)
      case LateEntry => (prev.0, prev.1 + 1)
  }

  /** The late entries of a block. */
  function LateEntries(daily: seq<DailyRecord>, setup: ShiftSetup): nat
  {
    Tally(DayEffects(daily, setup)).1
  }

  /** The quarter-days cut for a block: the direct cuts and one per three late entries. */
  function QuarterCuts(daily: seq<DailyRecord>, setup: ShiftSetup): nat
  {
    var t := Tally(DayEffects(daily, setup));
    t.0 + t.1 / 3
  }

  /** Each day adds at most one cut or one late entry. */
  lemma {:induction false} TallyBounded(effects: seq<Effect>)
    ensures Tally(effects).0 + Tally(effects).1 <= |effects|
    decreases |effects|
  {
    if effects != [] {
      TallyBounded(effects[..|effects| - 1]);
    }
  }

  /** Days without effect cut nothing. */
  lemma {:induction false} NoEffectsCutNothing(effects: seq<Effect>)
    requires forall k :: 0 <= k < |effects| ==> effects[k] == NoEffect
    ensures Tally(effects) == (0, 0)
    decreases |effects|
  {
    if effects != [] {
      NoEffectsCutNothing(effects[..|effects| - 1]);
    }
  }

  /** A block whose days are none of them present loses nothing. */
  lemma AbsentMonthCutsNothing(daily: seq<DailyRecord>, setup: ShiftSetup)
    requires forall k :: 0 <= k < |daily| ==> StatusCode(daily[k].status) !in PresentCodes
    ensures QuarterCuts(daily, setup) == 0 && LateEntries(daily, setup) == 0
  {
    var effects := DayEffects(daily, setup);
    forall k | 0 <= k < |effects|
      ensures effects[k] == NoEffect
    {
      MappedAt(daily, (d: DailyRecord) => DayEffect(d, setup), k);
    }
    NoEffectsCutNothing(effects);
  }

  /** A block never loses more quarter-days than it has records. */
  lemma QuarterCutsBounded(daily: seq<DailyRecord>, setup: ShiftSetup)
    ensures QuarterCuts(daily, setup) <= |daily| && LateEntries(daily, setup) <= |daily|
  {
    TallyBounded(DayEffects(daily, setup));
  }

  /** One day of the loop of `compute_monthly_payroll`, each `continue` a return without effect. */
  method ExamineDay(d: DailyRecord, setup: ShiftSetup) returns (effect: Effect)
    ensures effect == DayEffect(d, setup)
  {
    var inTime := Trim(d.inTime);
    var outTime := Trim(d.outTime);
    var status := StatusCode(d.status);
    if inTime == "" || outTime == "" || status !in PresentCodes {
      return NoEffect;
    }
    var inMinutes := ParseClock(inTime);
    var outMinutes := ParseClock(outTime);
    if inMinutes.None? || outMinutes.None? {
      return NoEffect;
    }
    var worked := WorkedMinutes(inMinutes.value, outMinutes.value);
    if Contains(setup.roleType, "split") && worked < 540 {
      return QuarterCut;
    }
    if setup.shiftIn == "" {
      return NoEffect;
    }
    var expectedIn := ParseClock(setup.shiftIn);
    if expectedIn.None? {
      return NoEffect;
    }
    var late := inMinutes.value - expectedIn.value;
    if late > 30 {
      effect := QuarterCut;
    } else if late > 5 {
      effect := LateEntry;
    } else {
      effect := NoEffect;
    }
  }

  /** Day k's entry among the block's effects. */
  lemma EffectAt(daily: seq<DailyRecord>, setup: ShiftSetup, k: nat)
    requires k < |daily|
    ensures |DayEffects(daily, setup)| == |daily|
    ensures DayEffects(daily, setup)[k] == DayEffect(daily[k], setup)
  {
    MappedAt(daily, (d: DailyRecord) => DayEffect(d, setup), k);
  }

  /** Day k of a block examined, as the loop sees it. */
  method ExamineDayAt(daily: seq<DailyRecord>, setup: ShiftSetup, k: nat) returns (effect: Effect)
    requires k < |daily|
    ensures |DayEffects(daily, setup)| == |daily|
    ensures effect == DayEffects(daily, setup)[k]
  {
    effect := ExamineDay(daily[k], setup);
    EffectAt(daily, setup, k);
  }

  /** One more effect adds to the cuts or to the late entries as its kind says. */
  lemma TallyStep(effects: seq<Effect>, k: nat)
    requires k < |effects|
    ensures Tally(effects[..k + 1]) == match effects[k]
      case NoEffect => Tally(effects[..k])
      case QuarterCut => (Tally(effects[..k]).0 + 1, Tally(effects[..k]).1)
      case LateEntry => (Tally(effects[..k]).0, Tally(effects[..k]).1 + 1)
  {
    assert effects[..k + 1][..k] == effects[..k];
  }

  /** The per-day loop and the cut per three late entries after it. */
  method CountDeductions(daily: seq<DailyRecord>, setup: ShiftSetup) returns (quarters: nat, lateEntries: nat)
    ensures lateEntries == LateEntries(daily, setup)
    ensures quarters == QuarterCuts(daily, setup)
  {
    ghost var effects := DayEffects(daily, setup);
    quarters, lateEntries := 0, 0;
    var k := 0;
    while k < |daily|
      invariant 0 <= k <= |daily|
      invariant (quarters, lateEntries) == Tally(effects[..k])
    {
      var effect := ExamineDayAt(daily, setup, k);
      TallyStep(effects, k);
      if effect == QuarterCut {
        quarters := quarters + 1;
      } else if effect == LateEntry {
        lateEntries := lateEntries + 1;
      }
      k := k + 1;
    }
    assert effects[..k] == effects;
    quarters := quarters + lateEntries / 3;
  }

  // ---------------------------------------------------------------------
  // The grade and the documents

  /** The grade with " -<cuts>" appended when there are cuts, the cuts printed as the float quarters / 4. */
  function GradeWithCuts(fm: string, quarters: nat): string
  {
    if quarters > 0 then fm + " -" + QuartersText(quarters) else fm
  }

  /** The grade is unchanged exactly when nothing was cut; otherwise the suffix reads back as the cut in days. */
  lemma GradeWithCutsSpec(fm: string, quarters: nat)
    ensures GradeWithCuts(fm, quarters) == fm <==> quarters == 0
    ensures StartsWith(GradeWithCuts(fm, quarters), fm)
    ensures quarters > 0 ==>
      var r := GradeWithCuts(fm, quarters);
      r[|fm|..|fm| + 2] == " -" && ParseDecimal(r[|fm| + 2..]).Some?
      && ParseDecimal(r[|fm| + 2..]).value.Value() == quarters as real / 4.0
  {
    var r := GradeWithCuts(fm, quarters);
    if quarters > 0 {
      var t := QuartersText(quarters);
      assert r == fm + " -" + t;
      assert r[|fm| + 2..] == t;
      assert |r| > |fm|;
      QuartersTextRoundTrip(quarters);
    }
    assert r[..|fm|] == fm;
  }

  /** The payroll summary document of one block; the cuts are kept as a count of quarter-days. */
  datatype PayrollDoc = PayrollDoc(employeeId: string, employeeName: string, department: string, month: string,
                                   presentDays: nat, halfDays: nat, leaves: nat, weekOffs: nat, absentDays: nat,
                                   totalWorkingDays: nat, fullMonthStatus: string, quarterDayCuts: nat,
                                   lateCount: nat, shiftType: string, shiftIn: string, shiftOut: string)

  /** The fields the engine sets on the employee's record. */
  datatype Profile = Profile(name: string, department: string, defaultShift: Option<string>,
                             shiftIn: string, shiftOut: string)

  /** The summary of a block for employee empId on its shift. */
  function PayrollDocOf(empId: string, b: Block, setup: ShiftSetup): PayrollDoc
  {
    var bk := BucketsOf(b.daily);
    var quarters := QuarterCuts(b.daily, setup);
    var fm := FmStatusText(bk.presentDays, bk.halfDays, bk.leaves, bk.absents, bk.weekOffs, bk.totalWorkingDays);
    PayrollDoc(empId, b.name, b.dept, b.month, bk.presentDays, bk.halfDays, bk.leaves, bk.weekOffs, bk.absents,
               bk.totalWorkingDays, GradeWithCuts(fm, quarters), quarters,
               LateEntries(b.daily, setup), setup.shiftType, setup.shiftIn, setup.shiftOut)
  }

  /** The summary of one block, as the body of the block loop builds it. */
  method ComputeBlock(empId: string, b: Block, setup: ShiftSetup) returns (doc: PayrollDoc)
    ensures doc == PayrollDocOf(empId, b, setup)
  {
    var bk := BucketsOf(b.daily);
    var quarters, lateEntries := CountDeductions(b.daily, setup);
    var fm := FmStatusText(bk.presentDays, bk.halfDays, bk.leaves, bk.absents, bk.weekOffs, bk.totalWorkingDays);
    if quarters > 0 {
      fm := fm + " -" + QuartersText(quarters);
    }
    doc := PayrollDoc(empId, b.name, b.dept, b.month, bk.presentDays, bk.halfDays, bk.leaves, bk.weekOffs,
                      bk.absents, bk.totalWorkingDays, fm, quarters, lateEntries, setup.shiftType,
                      setup.shiftIn, setup.shiftOut);
  }

  /** A summary's grade is the month's FM status, carrying a suffix exactly when quarter-days were cut. */
  lemma PayrollDocGrade(empId: string, b: Block, setup: ShiftSetup)
    ensures var doc := PayrollDocOf(empId, b, setup);
      var fm := FmStatusText(doc.presentDays, doc.halfDays, doc.leaves, doc.absentDays, doc.weekOffs,
                             doc.totalWorkingDays);
      && StartsWith(doc.fullMonthStatus, fm)
      && (doc.fullMonthStatus == fm <==> doc.quarterDayCuts == 0)
      && doc.presentDays + doc.halfDays + doc.leaves + doc.weekOffs + doc.absentDays <= doc.totalWorkingDays
      && doc.quarterDayCuts <= |b.daily|
  {
    var bk := BucketsOf(b.daily);
    var fm := FmStatusText(bk.presentDays, bk.halfDays, bk.leaves, bk.absents, bk.weekOffs, bk.totalWorkingDays);
    GradeWithCutsSpec(fm, QuarterCuts(b.daily, setup));
    BucketsBounded(b.daily);
    QuarterCutsBounded(b.daily, setup);
  }

  // ---------------------------------------------------------------------
  // The block loop

  /** What a counted block writes: its summary under (employee, month) and its employee's profile. */
  datatype Write = Write(empId: string, month: string, doc: PayrollDoc, profile: Profile)

  /** The write of a block; none when its employee code is empty. */
  function BlockWrite(b: Block, lk: Lookups): Option<Write>
  {
    var empId := Trim(b.empcode);
    if empId == "" then None
    else
      var setup := SetupOf(ShiftCodeOf(empId, lk), lk.shifts);
      Some(Write(empId, b.month, PayrollDocOf(empId, b, setup),
                 Profile(b.name, b.dept, setup.code, setup.shiftIn, setup.shiftOut)))
  }

  /**
   * A block writes exactly when its stripped code is non-empty; the summary
   * is stored under its own employee and month, and the profile records the
   * chosen shift code with the expected times.
   */
  lemma BlockWriteSpec(b: Block, lk: Lookups)
    ensures BlockWrite(b, lk).Some? <==> Trim(b.empcode) != ""
    ensures BlockWrite(b, lk).Some? ==>
      var w := BlockWrite(b, lk).value;
      && w.empId == Trim(b.empcode) && w.month == b.month
      && w.doc.employeeId == w.empId && w.doc.month == w.month
      && w.profile.defaultShift == ShiftCodeOf(w.empId, lk)
      && w.profile.shiftIn == w.doc.shiftIn && w.profile.shiftOut == w.doc.shiftOut
  {
  }

  /** The writes of the blocks, in order. */
  function Writes(blocks: seq<Block>, lk: Lookups): seq<Option<Write>>
  {
    Mapped(blocks, (b: Block) => BlockWrite(b, lk))
  }

  /** Block k's entry among the writes. */
  lemma WriteAt(blocks: seq<Block>, lk: Lookups, k: nat)
    requires k < |blocks|
    ensures |Writes(blocks, lk)| == |blocks|
    ensures Writes(blocks, lk)[k] == BlockWrite(blocks[k], lk)
  {
    MappedAt(blocks, (b: Block) => BlockWrite(b, lk), k);
  }

  /** The payroll collection by (employee, month), the employee records by employee id, and the count. */
  datatype Run = Run(payroll: map<(string, string), PayrollDoc>, profiles: map<string, Profile>, computed: nat)

  /** The state after the first n writes: each upserts both records and counts once. */
  function ApplyWrites(start: Run, ws: seq<Option<Write>>, n: nat): Run
    requires n <= |ws|
  {
    if n == 0 then start else ApplyWrite(ApplyWrites(start, ws, n - 1), ws[n - 1])
  }

  /** One block's write: both records upserted and the block counted, or nothing for a skipped block. */
  function ApplyWrite(r: Run, w: Option<Write>): Run
  {
    match w
    case None => r
    case Some(w) => Run(r.payroll[(w.empId, w.month) := w.doc], r.profiles[w.empId := w.profile], r.computed + 1)
  }

  /** The state `compute_monthly_payroll` leaves after all blocks. */
  function PayrollRun(start: Run, blocks: seq<Block>, lk: Lookups): Run
  {
    ApplyWrites(start, Writes(blocks, lk), |blocks|)
  }

  /** Write w upserts the summary under key. */
  predicate WritesKey(w: Option<Write>, key: (string, string))
  {
    w.Some? && (w.value.empId, w.value.month) == key
  }

  /** Write w upserts the profile of empId. */
  predicate WritesEmp(w: Option<Write>, empId: string)
  {
    w.Some? && w.value.empId == empId
  }

  /** A key is present after the writes exactly when it was before or some write carries it. */
  lemma {:induction false} ApplyWritesKeys(start: Run, ws: seq<Option<Write>>, n: nat, key: (string, string))
    requires n <= |ws|
    ensures key in ApplyWrites(start, ws, n).payroll <==>
      key in start.payroll || exists k :: 0 <= k < n && WritesKey(ws[k], key)
    decreases n
  {
    if n > 0 {
      ApplyWritesKeys(start, ws, n - 1, key);
      if WritesKey(ws[n - 1], key) {
        assert exists k :: 0 <= k < n && WritesKey(ws[k], key);
      }
    }
  }

  /** A key holds the summary of the last write that carries it. */
  lemma {:induction false} ApplyWritesLast(start: Run, ws: seq<Option<Write>>, n: nat, key: (string, string), k: nat)
    requires k < n <= |ws| && WritesKey(ws[k], key)
    requires forall j :: k < j < n ==> !WritesKey(ws[j], key)
    ensures key in ApplyWrites(start, ws, n).payroll
    ensures ApplyWrites(start, ws, n).payroll[key] == ws[k].value.doc
    decreases n
  {
    if k < n - 1 {
      ApplyWritesLast(start, ws, n - 1, key, k);
    }
  }

  /** A key no write carries keeps its summary. */
  lemma {:induction false} ApplyWritesUntouched(start: Run, ws: seq<Option<Write>>, n: nat, key: (string, string))
    requires n <= |ws| && key in start.payroll
    requires forall j :: 0 <= j < n ==> !WritesKey(ws[j], key)
    ensures key in ApplyWrites(start, ws, n).payroll
    ensures ApplyWrites(start, ws, n).payroll[key] == start.payroll[key]
    decreases n
  {
    if n > 0 {
      ApplyWritesUntouched(start, ws, n - 1, key);
    }
  }

  /** An employee's profile is the one of its last write. */
  lemma {:induction false} ApplyWritesProfile(start: Run, ws: seq<Option<Write>>, n: nat, empId: string, k: nat)
    requires k < n <= |ws| && WritesEmp(ws[k], empId)
    requires forall j :: k < j < n ==> !WritesEmp(ws[j], empId)
    ensures empId in ApplyWrites(start, ws, n).profiles
    ensures ApplyWrites(start, ws, n).profiles[empId] == ws[k].value.profile
    decreases n
  {
    if k < n - 1 {
      ApplyWritesProfile(start, ws, n - 1, empId, k);
    }
  }

  /** The number of writes among the first n. */
  lemma {:induction false} ApplyWritesCount(start: Run, ws: seq<Option<Write>>, n: nat)
    requires n <= |ws|
    ensures ApplyWrites(start, ws, n).computed == start.computed + |Written(ws, n)|
    decreases n
  {
    if n > 0 {
      ApplyWritesCount(start, ws, n - 1);
    }
  }

  /** The indices among the first n that write. */
  function Written(ws: seq<Option<Write>>, n: nat): (r: seq<nat>)
    requires n <= |ws|
    ensures |r| <= n
    ensures forall i :: 0 <= i < |r| ==> r[i] < n && ws[r[i]].Some?
  {
    if n == 0 then [] else Written(ws, n - 1) + (if ws[n - 1].Some? then [n - 1] else [])
  }

  /** The blocks among the first n that have an employee code. */
  function CountedBlocks(blocks: seq<Block>, n: nat): (r: seq<nat>)
    requires n <= |blocks|
    ensures |r| <= n
    ensures forall i :: 0 <= i < |r| ==> r[i] < n && Trim(blocks[r[i]].empcode) != ""
  {
    if n == 0 then [] else CountedBlocks(blocks, n - 1) + (if Trim(blocks[n - 1].empcode) != "" then [n - 1] else [])
  }

  /** The writes are the blocks with a code when each write is made exactly for a block with a code. */
  lemma {:induction false} WrittenAreCounted(blocks: seq<Block>, ws: seq<Option<Write>>, n: nat)
    requires n <= |blocks| == |ws|
    requires forall k :: 0 <= k < n ==> (ws[k].Some? <==> Trim(blocks[k].empcode) != "")
    ensures Written(ws, n) == CountedBlocks(blocks, n)
    decreases n
  {
    if n > 0 {
      WrittenAreCounted(blocks, ws, n - 1);
    }
  }

  /** `processed` is the number of blocks with a non-empty employee code, never more than the blocks. */
  lemma PayrollComputed(start: Run, blocks: seq<Block>, lk: Lookups)
    ensures PayrollRun(start, blocks, lk).computed == start.computed + |CountedBlocks(blocks, |blocks|)|
    ensures PayrollRun(start, blocks, lk).computed <= start.computed + |blocks|
  {
    var ws := Writes(blocks, lk);
    forall k | 0 <= k < |blocks|
      ensures ws[k].Some? <==> Trim(blocks[k].empcode) != ""
    {
      WriteAt(blocks, lk, k);
      BlockWriteSpec(blocks[k], lk);
    }
    WrittenAreCounted(blocks, ws, |blocks|);
    ApplyWritesCount(start, ws, |blocks|);
  }

  /**
   * The payroll collection keeps, under (employee, month), the summary of the
   * last block with that stripped code and that month, computed on the
   * employee's shift; a key no block writes keeps its old summary.
   */
  lemma PayrollLastWins(start: Run, blocks: seq<Block>, lk: Lookups, key: (string, string), k: nat)
    requires k < |blocks| && Trim(blocks[k].empcode) == key.0 != "" && blocks[k].month == key.1
    requires forall j :: k < j < |blocks| ==> !(Trim(blocks[j].empcode) == key.0 && blocks[j].month == key.1)
    ensures key in PayrollRun(start, blocks, lk).payroll
    ensures PayrollRun(start, blocks, lk).payroll[key] ==
      PayrollDocOf(key.0, blocks[k], SetupOf(ShiftCodeOf(key.0, lk), lk.shifts))
  {
    var ws := Writes(blocks, lk);
    WriteAt(blocks, lk, k);
    BlockWriteSpec(blocks[k], lk);
    forall j | k < j < |blocks|
      ensures !WritesKey(ws[j], key)
    {
      WriteAt(blocks, lk, j);
      BlockWriteSpec(blocks[j], lk);
    }
    ApplyWritesLast(start, ws, |blocks|, key, k);
  }

  /**
   * The employee's record carries the shift code and expected times of the
   * employee's last block with a code.
   */
  lemma ProfileLastWins(start: Run, blocks: seq<Block>, lk: Lookups, empId: string, k: nat)
    requires k < |blocks| && Trim(blocks[k].empcode) == empId != ""
    requires forall j :: k < j < |blocks| ==> Trim(blocks[j].empcode) != empId
    ensures empId in PayrollRun(start, blocks, lk).profiles
    ensures var setup := SetupOf(ShiftCodeOf(empId, lk), lk.shifts);
      PayrollRun(start, blocks, lk).profiles[empId]
        == Profile(blocks[k].name, blocks[k].dept, ShiftCodeOf(empId, lk), setup.shiftIn, setup.shiftOut)
  {
    var ws := Writes(blocks, lk);
    WriteAt(blocks, lk, k);
    BlockWriteSpec(blocks[k], lk);
    forall j | k < j < |blocks|
      ensures !WritesEmp(ws[j], empId)
    {
      WriteAt(blocks, lk, j);
      BlockWriteSpec(blocks[j], lk);
    }
    ApplyWritesProfile(start, ws, |blocks|, empId, k);
  }

  /** The block loop of `compute_monthly_payroll`. */
  method ComputeMonthlyPayroll(blocks: seq<Block>, lk: Lookups,
                               payroll: map<(string, string), PayrollDoc>, profiles: map<string, Profile>)
    returns (payroll': map<(string, string), PayrollDoc>, profiles': map<string, Profile>, computed: nat)
    ensures Run(payroll', profiles', computed) == PayrollRun(Run(payroll, profiles, 0), blocks, lk)
  {
    ghost var ws := Writes(blocks, lk);
    payroll', profiles', computed := payroll, profiles, 0;
    var k := 0;
    while k < |blocks|
      invariant 0 <= k <= |blocks| == |ws|
      invariant Run(payroll', profiles', computed) == ApplyWrites(Run(payroll, profiles, 0), ws, k)
    {
      var w := ComputeBlockWrite(blocks, lk, k);
      if w.Some? {
        payroll' := payroll'[(w.value.empId, w.value.month) := w.value.doc];
        profiles' := profiles'[w.value.empId := w.value.profile];
        computed := computed + 1;
      }
      k := k + 1;
    }
  }

  /** The body of the block loop for block k: the code check, the shift, the summary and the profile. */
  method ComputeBlockWrite(blocks: seq<Block>, lk: Lookups, k: nat) returns (w: Option<Write>)
    requires k < |blocks|
    ensures |Writes(blocks, lk)| == |blocks|
    ensures w == Writes(blocks, lk)[k]
  {
    WriteAt(blocks, lk, k);
    var b := blocks[k];
    var empId := Trim(b.empcode);
    if empId == "" {
      return None;
    }
    var setup := SetupOf(ShiftCodeOf(empId, lk), lk.shifts);
    var doc := ComputeBlock(empId, b, setup);
    w := Some(Write(empId, b.month, doc, Profile(b.name, b.dept, setup.code, setup.shiftIn, setup.shiftOut)));
  }
}
