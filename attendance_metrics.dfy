/**
 * The per-day metrics: punch times read as minutes, the shift that applies
 * to an employee on a date, and, for every daily document of a month, the
 * work, overtime, late and early-exit minutes with the overnight, missed
 * punch and wrong-shift flags, written back into the daily collection.
 *
 * Times are whole minutes; the source converts work and overtime to hours
 * rounded to two places when it stores them, and the model keeps minutes.
 */
module AttendanceMetrics {

  import opened Wrappers
  import opened Text
  import opened Numerals
  import opened MongoHelpers

  // ---------------------------------------------------------------------
  // Reading times

  /**
   * `hhmm_to_minutes`: the text stripped; when it holds both a space and a
   * colon, only its last space-separated piece; then the integers of the
   * first two colon-separated pieces as hours and minutes, without any
   * range check. Empty text and anything that fails to parse give None.
   */
  function HhmmToMinutes(t: string): Option<int>
  {
    if t == "" then None else ReadHoursMinutes(ClockPiece(Trim(t)))
  }

  /** The clock part of a stripped text: the piece after its last space when it has a space and a colon. */
  function ClockPiece(s: string): string
  {
    if ' ' in s && ':' in s then AfterLast(s, " ") else s
  }

  /** Hours and minutes of the first two colon-separated pieces. */
  function ReadHoursMinutes(clock: string): Option<int>
  {
    var parts := Split(clock, ':');
    if |parts| < 2 then None
    else match (ParseInt(parts[0]), ParseInt(parts[1]))
      case (Some(h), Some(m)) => Some(h * 60 + m)
      case _ => None
  }

  /** Digits, a colon and digits, as a list of characters. */
  predicate DigitsColonDigits(s: string, h: string, m: string)
  {
    |h| > 0 && AllDigits(h) && |m| > 0 && AllDigits(m) && s == h + ":" + m
  }

  lemma DigitsColonDigitsChars(s: string, h: string, m: string)
    requires DigitsColonDigits(s, h, m)
    ensures forall k :: 0 <= k < |s| ==> IsDigit(s[k]) || s[k] == ':'
  {
    forall k | 0 <= k < |s|
      ensures IsDigit(s[k]) || s[k] == ':'
    {
      if k < |h| {
        assert s[k] == h[k];
      } else if k > |h| {
        assert s[k] == m[k - |h| - 1];
      }
    }
  }

  lemma ReadDigitsColonDigits(s: string, h: string, m: string)
    requires DigitsColonDigits(s, h, m)
    ensures ReadHoursMinutes(s) == Some(DigitsValue(h) * 60 + DigitsValue(m))
  {
    SplitDigitsColon(s, h, m);
    ParseDigits(h);
    ParseDigits(m);
  }

  /** Digits, a colon and digits split at the colon into the two runs of digits. */
  lemma SplitDigitsColon(s: string, h: string, m: string)
    requires DigitsColonDigits(s, h, m)
    ensures Split(s, ':') == [h, m]
  {
    assert s == h + [':'] + m;
    NoColon(h);
    NoColon(m);
    SplitAnyFirst(h, ':', m, {':'});
    SplitAnyNone(m, {':'});
  }

  lemma NoColon(d: string)
    requires AllDigits(d)
    ensures forall k :: 0 <= k < |d| ==> d[k] !in {':'}
  {
    forall k | 0 <= k < |d|
      ensures d[k] !in {':'}
    {
      assert IsDigit(d[k]);
    }
  }

  /** Digits, a colon and digits read as hours times 60 plus minutes, whatever their size. */
  lemma HhmmReadsDigits(h: string, m: string)
    requires |h| > 0 && AllDigits(h) && |m| > 0 && AllDigits(m)
    ensures HhmmToMinutes(h + ":" + m) == Some(DigitsValue(h) * 60 + DigitsValue(m))
  {
    var s := h + ":" + m;
    DigitsColonDigitsChars(s, h, m);
    TrimNoSpace(s);
    assert ClockPiece(s) == s by {
      assert ' ' !in s;
    }
    ReadDigitsColonDigits(s, h, m);
  }

  /** A timestamp "date time" reads as its time: the date before the last space is ignored. */
  lemma HhmmReadsLastPiece(date: string, h: string, m: string)
    requires |date| > 0 && forall k :: 0 <= k < |date| ==> !IsSpace(date[k])
    requires |h| > 0 && AllDigits(h) && |m| > 0 && AllDigits(m)
    ensures HhmmToMinutes(date + " " + h + ":" + m) == HhmmToMinutes(h + ":" + m)
  {
    var clock := h + ":" + m;
    DigitsColonDigitsChars(clock, h, m);
    assert clock[|h|] == ':';
    TimestampClock(date, clock);
    assert date + " " + h + ":" + m == date + " " + clock;
    HhmmReadsDigits(h, m);
    ReadDigitsColonDigits(clock, h, m);
  }

  /** Of a date, a space and a clock time without spaces, the strip is the whole and the clock piece is the time. */
  lemma TimestampClock(date: string, clock: string)
    requires |date| > 0 && forall k :: 0 <= k < |date| ==> !IsSpace(date[k])
    requires |clock| > 0 && forall k :: 0 <= k < |clock| ==> !IsSpace(clock[k])
    requires ':' in clock
    ensures Trim(date + " " + clock) == date + " " + clock
    ensures ClockPiece(date + " " + clock) == clock
  {
    var s := date + " " + clock;
    assert s[0] == date[0] && s[|s| - 1] == clock[|clock| - 1];
    TrimEndsKept(s);
    assert s[|date|] == ' ';
    assert forall j :: |date| < j < |s| ==> s[j] == clock[j - |date| - 1];
    AfterLastAt(s, ' ', |date|);
    assert s[|date| + 1..] == clock;
    var i :| 0 <= i < |clock| && clock[i] == ':';
    assert s[|date| + 1 + i] == ':';
  }

  /** A text whose first and last characters are not whitespace is its own strip. */
  lemma TrimEndsKept(s: string)
    requires |s| > 0 && !IsSpace(s[0]) && !IsSpace(s[|s| - 1])
    ensures Trim(s) == s
  {
    assert TrimLeft(s) == s;
  }

  /** `normalize_punches`: both raw punches stripped, an absent one read as "". */
  function NormalizePunches(rawIn: string, rawOut: string): (string, string)
  {
    (Trim(rawIn), Trim(rawOut))
  }

  /** Normalised punches are already normal. */
  lemma NormalizePunchesIdempotent(rawIn: string, rawOut: string)
    ensures var (i, o) := NormalizePunches(rawIn, rawOut);
      NormalizePunches(i, o) == (i, o)
  {
    TrimIdempotent(rawIn);
    TrimIdempotent(rawOut);
  }

  // ---------------------------------------------------------------------
  // The shift of a day

  /** The master record of a code, if the shift master has one. */
  function ShiftByCode(s: Store, code: Option<string>): Option<ShiftMaster>
  {
    if code.Some? && code.value in s.shiftMaster then Some(s.shiftMaster[code.value]) else None
  }

  /**
   * `fetch_assigned_shift`: the assignment for the employee on the date
   * decides outright; without one, a non-empty default shift of the
   * employee; otherwise no shift.
   */
  function FetchAssignedShift(s: Store, empId: string, date: string): Option<ShiftMaster>
  {
    if (empId, date) in s.assignments then ShiftByCode(s, s.assignments[(empId, date)])
    else if empId in s.employees && s.employees[empId].defaultShift.Some? && s.employees[empId].defaultShift.value != ""
    then ShiftByCode(s, s.employees[empId].defaultShift)
    else None
  }

  /**
   * The assignment wins even when its code has no master record (no fall
   * back to the default); the default counts only without an assignment
   * and when it is non-empty; a shift found is the master record of the
   * code that chose it.
   */
  lemma FetchAssignedShiftSpec(s: Store, empId: string, date: string)
    ensures var r := FetchAssignedShift(s, empId, date);
      && ((empId, date) in s.assignments ==>
            (r.Some? <==> s.assignments[(empId, date)].Some? && s.assignments[(empId, date)].value in s.shiftMaster))
      && ((empId, date) in s.assignments && r.Some? ==> r.value == s.shiftMaster[s.assignments[(empId, date)].value])
      && ((empId, date) !in s.assignments && r.Some? ==>
            empId in s.employees && s.employees[empId].defaultShift.Some?
            && s.employees[empId].defaultShift.value != ""
            && r.value == s.shiftMaster[s.employees[empId].defaultShift.value])
      && ((empId, date) !in s.assignments && empId !in s.employees ==> r.None?)
  {
  }

  /** What the metrics take from the shift: expected times of the first interval, grace, break and code. */
  datatype Expected = Expected(expIn: Option<int>, expOut: Option<int>, grace: int, breakMinutes: int,
                               code: Option<string>)

  function ExpectedOf(shift: Option<ShiftMaster>): Expected
  {
    var grace := if shift.Some? then shift.value.graceMinutes else 0;
    var breakMinutes := if shift.Some? then shift.value.breakMinutes else 0;
    if shift.Some? && |shift.value.intervals| > 0 then
      var primary := shift.value.intervals[0];
      Expected(HhmmToMinutes(primary.start), HhmmToMinutes(primary.end), grace, breakMinutes,
               Some(shift.value.shiftCode))
    else Expected(None, None, grace, breakMinutes, None)
  }

  /** The expected end, a day later when the shift ends before it starts. */
  function ExpectedEnd(e: Expected): Option<int>
  {
    match e.expOut
    case None => None
    case Some(o) => Some(if e.expIn.Some? && o < e.expIn.value then o + 1440 else o)
  }

  // ---------------------------------------------------------------------
  // The metrics of a day

  datatype Metrics = Metrics(workMinutes: int, otMinutes: int, lateMinutes: int, earlyExitMinutes: int,
                             overnight: bool, missPunch: bool, wrongShift: bool, assignedShiftCode: Option<string>)

  function Max(a: int, b: int): int
  {
    if a >= b then a else b
  }

  function Abs(a: int): nat
  {
    if a < 0 then -a else a
  }

  /** The metrics of a day from its punches in minutes and the expected times. */
  function DayMetrics(inMin: Option<int>, outMin: Option<int>, e: Expected): Metrics
  {
    var wrong := e.expIn.Some? && inMin.Some? && Abs(inMin.value - e.expIn.value) > 360;
    if inMin.None? || outMin.None? then Metrics(0, 0, 0, 0, false, true, wrong, e.code)
    else
      var i := inMin.value;
      var overnight := outMin.value < i;
      var o := if overnight then outMin.value + 1440 else outMin.value;
      var end := ExpectedEnd(e);
      var late := if e.expIn.Some? then i - (e.expIn.value + e.grace) else 0;
      Metrics(Max(0, o - i - e.breakMinutes),
              if end.Some? then Max(0, o - end.value) else 0,
              Max(0, late),
              if end.Some? then Max(0, end.value - o) else 0,
              overnight, false, wrong, e.code)
  }

  /** A day goes unpunched exactly when a punch fails to read, and then every minute figure stays 0. */
  lemma MissPunchSpec(inMin: Option<int>, outMin: Option<int>, e: Expected)
    ensures var m := DayMetrics(inMin, outMin, e);
      && (m.missPunch <==> inMin.None? || outMin.None?)
      && (m.missPunch ==> m.workMinutes == 0 && m.otMinutes == 0 && m.lateMinutes == 0 && m.earlyExitMinutes == 0
                          && !m.overnight)
  {
  }

  /**
   * Overnight exactly when both punches read and out is earlier than in;
   * the work is then measured to out on the next day, less the break, and
   * never negative.
   */
  lemma OvernightSpec(inMin: Option<int>, outMin: Option<int>, e: Expected)
    ensures var m := DayMetrics(inMin, outMin, e);
      && (m.overnight <==> inMin.Some? && outMin.Some? && outMin.value < inMin.value)
      && m.workMinutes >= 0
      && (inMin.Some? && outMin.Some? ==>
            m.workMinutes == Max(0, outMin.value + (if m.overnight then 1440 else 0) - inMin.value - e.breakMinutes))
  {
  }

  /**
   * Overtime and early exit are both measured against the expected end and
   * never negative; at most one of them is positive, and their difference
   * is how far the actual out lies past the expected end.
   */
  lemma OvertimeEarlyExitSpec(inMin: Option<int>, outMin: Option<int>, e: Expected)
    ensures var m := DayMetrics(inMin, outMin, e);
      && m.otMinutes >= 0 && m.earlyExitMinutes >= 0
      && (m.otMinutes == 0 || m.earlyExitMinutes == 0)
      && (!m.missPunch && ExpectedEnd(e).Some? ==>
            m.otMinutes - m.earlyExitMinutes
              == outMin.value + (if m.overnight then 1440 else 0) - ExpectedEnd(e).value)
      && (ExpectedEnd(e).None? ==> m.otMinutes == 0 && m.earlyExitMinutes == 0)
  {
  }

  /** Late is the time past the expected start plus grace, counted only when both punches read. */
  lemma LateSpec(inMin: Option<int>, outMin: Option<int>, e: Expected)
    ensures var m := DayMetrics(inMin, outMin, e);
      && m.lateMinutes >= 0
      && (m.lateMinutes > 0 <==> !m.missPunch && e.expIn.Some? && inMin.value > e.expIn.value + e.grace)
      && (m.lateMinutes > 0 ==> m.lateMinutes == inMin.value - e.expIn.value - e.grace)
  {
  }

  /** The wrong-shift flag needs only the in punch and the expected start, more than six hours apart. */
  lemma WrongShiftSpec(inMin: Option<int>, outMin: Option<int>, e: Expected)
    ensures DayMetrics(inMin, outMin, e).wrongShift <==>
      e.expIn.Some? && inMin.Some? && (inMin.value > e.expIn.value + 360 || inMin.value < e.expIn.value - 360)
  {
  }

  /**
   * Expected times, and the recorded shift code, come only from a shift
   * with intervals; without a shift grace and break are 0.
   */
  lemma ExpectedOfSpec(shift: Option<ShiftMaster>)
    ensures var e := ExpectedOf(shift);
      && (e.code.Some? <==> shift.Some? && |shift.value.intervals| > 0)
      && (e.expIn.Some? || e.expOut.Some? ==> e.code.Some?)
      && (shift.None? ==> e.grace == 0 && e.breakMinutes == 0)
      && (e.code.Some? ==>
            e.code.value == shift.value.shiftCode && e.expIn == HhmmToMinutes(shift.value.intervals[0].start))
  {
  }

  /** The metrics of a daily document, on the shift that applies to it. */
  function DocMetrics(doc: DailyDoc, s: Store): Metrics
  {
    var (i, o) := NormalizePunches(doc.punchInRaw, doc.punchOutRaw);
    DayMetrics(HhmmToMinutes(i), HhmmToMinutes(o), ExpectedOf(FetchAssignedShift(s, doc.employeeId, doc.date)))
  }

  /** The body of the loop of `compute_for_month` for one document: punches, shift, then the figures. */
  method ComputeDay(doc: DailyDoc, s: Store) returns (m: Metrics)
    ensures m == DocMetrics(doc, s)
  {
    var (inVal, outVal) := NormalizePunches(doc.punchInRaw, doc.punchOutRaw);
    var e := ExpectedOf(FetchAssignedShift(s, doc.employeeId, doc.date));
    m := MeasureDay(HhmmToMinutes(inVal), HhmmToMinutes(outVal), e);
  }

  /** The figures of a day, each set in the order of the source's loop body. */
  method MeasureDay(inMin: Option<int>, outMin: Option<int>, e: Expected) returns (m: Metrics)
    ensures m == DayMetrics(inMin, outMin, e)
  {
    var outAt := outMin;
    var work, ot, late, early := 0, 0, 0, 0;
    var overnight, miss, wrong := false, false, false;
    if inMin.None? || outAt.None? {
      miss := true;
    }
    if inMin.Some? && outAt.Some? && outAt.value < inMin.value {
      outAt := Some(outAt.value + 1440);
      overnight := true;
    }
    if inMin.Some? && outAt.Some? {
      work := Max(0, outAt.value - inMin.value - e.breakMinutes);
      if e.expOut.Some? {
        var adjExpOut := e.expOut.value;
        if e.expIn.Some? && e.expOut.value < e.expIn.value {
          adjExpOut := e.expOut.value + 1440;
        }
        if outAt.value > adjExpOut {
          ot := Max(0, outAt.value - adjExpOut);
        }
      }
      if e.expIn.Some? && inMin.value > e.expIn.value + e.grace {
        late := Max(0, inMin.value - (e.expIn.value + e.grace));
      }
      if e.expOut.Some? {
        var adjExpOut := e.expOut.value;
        if e.expIn.Some? && e.expOut.value < e.expIn.value {
          adjExpOut := e.expOut.value + 1440;
        }
        if outAt.value < adjExpOut {
          early := Max(0, adjExpOut - outAt.value);
        }
      }
    }
    if e.expIn.Some? && inMin.Some? && Abs(inMin.value - e.expIn.value) > 360 {
      wrong := true;
    }
    m := Metrics(work, ot, late, early, overnight, miss, wrong, e.code);
  }

  /** Figures that depend only on what the month's pass leaves alone agree. */
  lemma DocMetricsDepends(d: DailyDoc, d': DailyDoc, s: Store, s': Store)
    requires d'.employeeId == d.employeeId && d'.date == d.date
    requires d'.punchInRaw == d.punchInRaw && d'.punchOutRaw == d.punchOutRaw
    requires s'.employees == s.employees && s'.shiftMaster == s.shiftMaster && s'.assignments == s.assignments
    ensures DocMetrics(d', s') == DocMetrics(d, s)
  {
    assert FetchAssignedShift(s', d'.employeeId, d'.date) == FetchAssignedShift(s, d.employeeId, d.date);
  }

  /** The document with the computed figures set and everything else kept. */
  function WithMetrics(doc: DailyDoc, m: Metrics): DailyDoc
  {
    doc.(workMinutes := m.workMinutes, otMinutes := m.otMinutes, lateMinutes := m.lateMinutes,
         earlyExitMinutes := m.earlyExitMinutes, overnight := m.overnight, missPunch := m.missPunch,
         wrongShift := m.wrongShift, assignedShiftCode := m.assignedShiftCode)
  }

  // ---------------------------------------------------------------------
  // A month

  /** The keys of the daily documents whose date starts with the year-month. */
  function MatchingKeys(daily: map<(string, string), DailyDoc>, yearMonth: string): set<(string, string)>
  {
    set k | k in daily && StartsWith(daily[k].date, yearMonth)
  }

  /** The daily collection with the documents whose keys are in `done` given their metrics. */
  function UpdatedDocs(s: Store, done: set<(string, string)>): map<(string, string), DailyDoc>
  {
    map k | k in s.attendanceDaily ::
      if k in done then WithMetrics(s.attendanceDaily[k], DocMetrics(s.attendanceDaily[k], s)) else s.attendanceDaily[k]
  }

  /** One more document given its metrics. */
  lemma UpdatedDocsStep(s: Store, done: set<(string, string)>, key: (string, string))
    requires key in s.attendanceDaily && key !in done
    ensures UpdatedDocs(s, done + {key}) ==
      UpdatedDocs(s, done)[key := WithMetrics(s.attendanceDaily[key], DocMetrics(s.attendanceDaily[key], s))]
  {
  }

  /** The daily collection after `compute_for_month`. */
  function MonthMetrics(s: Store, yearMonth: string): map<(string, string), DailyDoc>
  {
    UpdatedDocs(s, MatchingKeys(s.attendanceDaily, yearMonth))
  }

  /**
   * The month's pass keeps every key, leaves documents of other months as
   * they were, and sets on each document of the month its metrics while
   * keeping its identity and raw punches.
   */
  lemma MonthMetricsSpec(s: Store, yearMonth: string, key: (string, string))
    ensures key in MonthMetrics(s, yearMonth) <==> key in s.attendanceDaily
    ensures key in s.attendanceDaily && !StartsWith(s.attendanceDaily[key].date, yearMonth) ==>
      MonthMetrics(s, yearMonth)[key] == s.attendanceDaily[key]
    ensures key in s.attendanceDaily && StartsWith(s.attendanceDaily[key].date, yearMonth) ==>
      var d, d' := s.attendanceDaily[key], MonthMetrics(s, yearMonth)[key];
      var m := DocMetrics(d, s);
      && d'.employeeId == d.employeeId && d'.date == d.date
      && d'.punchInRaw == d.punchInRaw && d'.punchOutRaw == d.punchOutRaw && d'.status == d.status
      && d'.workMinutes == m.workMinutes && d'.otMinutes == m.otMinutes && d'.lateMinutes == m.lateMinutes
      && d'.earlyExitMinutes == m.earlyExitMinutes && d'.missPunch == m.missPunch
      && d'.overnight == m.overnight && d'.wrongShift == m.wrongShift
      && d'.assignedShiftCode == m.assignedShiftCode
  {
  }

  /** Recomputing a month changes nothing: the figures depend only on what the pass leaves alone. */
  lemma MonthMetricsIdempotent(s: Store, yearMonth: string)
    ensures var s' := s.(attendanceDaily := MonthMetrics(s, yearMonth));
      MonthMetrics(s', yearMonth) == MonthMetrics(s, yearMonth)
  {
    var s' := s.(attendanceDaily := MonthMetrics(s, yearMonth));
    forall k | k in s'.attendanceDaily
      ensures MonthMetrics(s', yearMonth)[k] == MonthMetrics(s, yearMonth)[k]
    {
      var d := s.attendanceDaily[k];
      if StartsWith(d.date, yearMonth) {
        DocMetricsDepends(d, s'.attendanceDaily[k], s, s');
      }
    }
  }

  /** One pass of the cursor loop: the document under `key` gets its metrics. */
  method RefreshDoc(db: Db, s: Store, done: set<(string, string)>, key: (string, string))
    requires db.State() == s.(attendanceDaily := UpdatedDocs(s, done))
    requires key in s.attendanceDaily && key !in done
    modifies db
    ensures db.State() == s.(attendanceDaily := UpdatedDocs(s, done + {key}))
  {
    var doc := db.attendanceDaily[key];
    assert doc == s.attendanceDaily[key];
    var m := ComputeDay(doc, s);
    UpdatedDocsStep(s, done, key);
    db.attendanceDaily := db.attendanceDaily[key := WithMetrics(doc, m)];
  }

  /**
   * `compute_for_month`: every daily document of the month, in whatever
   * order the cursor yields them, gets its metrics; `processed` counts them.
   */
  method ComputeForMonth(db: Db, yearMonth: string) returns (processed: nat)
    modifies db
    ensures db.State() == old(db.State()).(attendanceDaily := MonthMetrics(old(db.State()), yearMonth))
    ensures processed == |MatchingKeys(old(db.attendanceDaily), yearMonth)|
  {
    var s := db.State();
    var all := MatchingKeys(s.attendanceDaily, yearMonth);
    var pending := all;
    var done: set<(string, string)> := {};
    processed := 0;
    while pending != {}
      invariant done <= all && pending == all - done
      invariant db.State() == s.(attendanceDaily := UpdatedDocs(s, done))
      invariant processed == |done|
      decreases |pending|
    {
      var key :| key in pending;
      RefreshDoc(db, s, done, key);
      pending := pending - {key};
      done := done + {key};
      processed := processed + 1;
    }
    assert done == all;
  }
}
