/**
 * The keyed stores of the payroll database and the helpers that write them:
 * upserts that overwrite the one record under a key, the month of per-date
 * shift assignments, and the ingestion of parsed attendance blocks as one
 * daily document per (employee, date).
 *
 * A collection is a map from its key to its document. Time stamps, document
 * ids and the source-file reference are not part of the model. `Store` is the
 * value of the four collections; the class `Db` holds them as fields and its
 * methods update them in place, each proved equal to a function on `Store`.
 */
module MongoHelpers {

  import opened Wrappers
  import opened Text
  import opened Numerals
  import opened Calendar
  import opened Search
  import opened MvaLabels
  import opened MvaBlocks

  datatype Employee = Employee(name: string, department: string, defaultShift: Option<string>, status: string)

  /** One "HH:MM" to "HH:MM" interval of a shift, as text. */
  datatype Interval = Interval(start: string, end: string)

  datatype ShiftMaster = ShiftMaster(shiftCode: string, intervals: seq<Interval>, weeklyOff: seq<string>,
                                     graceMinutes: int, breakMinutes: int, description: string)

  /**
   * A day's attendance document. The metrics are kept in minutes; the hour
   * figures the database stores are those minutes divided by 60 and rounded.
   */
  datatype DailyDoc = DailyDoc(employeeId: string, employeeName: string, department: string, date: string,
                               punchInRaw: string, punchOutRaw: string, rawStatus: string, status: string,
                               workMinutes: int, otMinutes: int, lateMinutes: int, earlyExitMinutes: int,
                               overnight: bool, wrongShift: bool, missPunch: bool,
                               assignedShiftCode: Option<string>)

  /** The key of a daily document: (employee id, date). */
  function DocKey(d: DailyDoc): (string, string)
  {
    (d.employeeId, d.date)
  }

  /** The collections: employees by id, shifts by code, assignments and daily documents by (employee, date). */
  datatype Store = Store(employees: map<string, Employee>, shiftMaster: map<string, ShiftMaster>,
                         assignments: map<(string, string), Option<string>>,
                         attendanceDaily: map<(string, string), DailyDoc>)

  // ---------------------------------------------------------------------
  // Upserts

  /** `upsert_employee`: nothing for an empty id, else the record under the id becomes an active employee. */
  function WithEmployee(s: Store, empId: string, name: string, department: string, defaultShift: Option<string>): Store
  {
    if empId == "" then s
    else s.(employees := s.employees[empId := Employee(name, department, defaultShift, "Active")])
  }

  /** An empty id changes nothing; otherwise only the record under the id changes, and it is the new one. */
  lemma WithEmployeeSpec(s: Store, empId: string, name: string, department: string, defaultShift: Option<string>)
    ensures var r := WithEmployee(s, empId, name, department, defaultShift);
      && (empId == "" ==> r == s)
      && (empId != "" ==> empId in r.employees && r.employees[empId] == Employee(name, department, defaultShift, "Active"))
      && r.employees.Keys == s.employees.Keys + (if empId == "" then {} else {empId})
      && (forall k :: k in s.employees && k != empId ==> r.employees[k] == s.employees[k])
      && r.shiftMaster == s.shiftMaster && r.assignments == s.assignments && r.attendanceDaily == s.attendanceDaily
  {
  }

  /** The document `upsert_shift_master` writes: a missing weekly-off list is empty. */
  function ShiftDoc(shiftCode: string, intervals: seq<Interval>, weeklyOff: Option<seq<string>>,
                    graceMinutes: int, breakMinutes: int, description: string): ShiftMaster
  {
    ShiftMaster(shiftCode, intervals, weeklyOff.GetOr([]), graceMinutes, breakMinutes, description)
  }

  /** The shift record under its code replaced by `doc`. */
  function WithShift(s: Store, doc: ShiftMaster): Store
  {
    s.(shiftMaster := s.shiftMaster[doc.shiftCode := doc])
  }

  /** `upsert_shift_master` overwrites the record keyed by the code and keeps every other shift. */
  lemma WithShiftSpec(s: Store, shiftCode: string, intervals: seq<Interval>, weeklyOff: Option<seq<string>>,
                      graceMinutes: int, breakMinutes: int, description: string)
    ensures var r := WithShift(s, ShiftDoc(shiftCode, intervals, weeklyOff, graceMinutes, breakMinutes, description));
      && shiftCode in r.shiftMaster
      && r.shiftMaster[shiftCode] == ShiftMaster(shiftCode, intervals, if weeklyOff.None? then [] else weeklyOff.value,
                                                graceMinutes, breakMinutes, description)
      && r.shiftMaster.Keys == s.shiftMaster.Keys + {shiftCode}
      && (forall c :: c in s.shiftMaster && c != shiftCode ==> r.shiftMaster[c] == s.shiftMaster[c])
      && r.employees == s.employees && r.assignments == s.assignments && r.attendanceDaily == s.attendanceDaily
  {
  }

  /** `assign_shift_to_employee_on_date`: the assignment keyed by (employee, date) is overwritten. */
  function WithAssignment(s: Store, employeeId: string, shiftCode: Option<string>, date: string): Store
  {
    s.(assignments := s.assignments[(employeeId, date) := shiftCode])
  }

  /** Re-assigning a date overwrites its one assignment: the keys only grow by that one key. */
  lemma WithAssignmentSpec(s: Store, employeeId: string, shiftCode: Option<string>, date: string)
    ensures var r := WithAssignment(s, employeeId, shiftCode, date);
      && r.assignments.Keys == s.assignments.Keys + {(employeeId, date)}
      && r.assignments[(employeeId, date)] == shiftCode
      && (forall k :: k in s.assignments && k != (employeeId, date) ==> r.assignments[k] == s.assignments[k])
      && r.employees == s.employees && r.shiftMaster == s.shiftMaster && r.attendanceDaily == s.attendanceDaily
  {
  }

  // ---------------------------------------------------------------------
  // A month of assignments

  /** `y, m = [int(x) for x in ym.split('-')]`: exactly two parts, both integers. */
  function ParseYearMonth(ym: string): Option<(int, int)>
  {
    var parts := Split(ym, '-');
    if |parts| == 2 && ParseInt(parts[0]).Some? && ParseInt(parts[1]).Some?
    then Some((ParseInt(parts[0]).value, ParseInt(parts[1]).value))
    else None
  }

  /** `f"{y}-{m:02d}-{day:02d}"`. */
  function DateString(y: int, m: int, d: int): string
  {
    IntToString(y) + "-" + Pad2(m) + "-" + Pad2(d)
  }

  /** A day of a month is written as exactly two digits that read back as the day. */
  lemma Pad2Digits(d: nat)
    requires d < 100
    ensures |Pad2(d)| == 2 && AllDigits(Pad2(d)) && DigitsValue(Pad2(d)) == d
  {
    var p := Pad2(d);
    if d < 10 {
      assert p == "0" + [DigitChar(d)];
      assert p[..1] == "0";
      assert p[..1][..0] == "";
    } else {
      NatToStringValue(d);
      assert NatToString(d) == NatToString(d / 10) + [DigitChar(d % 10)];
    }
  }

  /** Different days of a month give different date strings. */
  lemma DateStringInjective(y: int, m: int, d1: nat, d2: nat)
    requires d1 < 100 && d2 < 100
    requires DateString(y, m, d1) == DateString(y, m, d2)
    ensures d1 == d2
  {
    Pad2Digits(d1);
    Pad2Digits(d2);
    var s := DateString(y, m, d1);
    var prefix := IntToString(y) + "-" + Pad2(m) + "-";
    assert s == prefix + Pad2(d1) && s == prefix + Pad2(d2);
    assert Pad2(d1) == s[|prefix|..] == Pad2(d2);
  }

  /** The assignments after the days 1..n of month m of year y are assigned `shiftCode`. */
  function AssignDays(a: map<(string, string), Option<string>>, employeeId: string, shiftCode: Option<string>,
                      y: int, m: int, n: nat): map<(string, string), Option<string>>
    decreases n
  {
    if n == 0 then a else AssignDays(a, employeeId, shiftCode, y, m, n - 1)[(employeeId, DateString(y, m, n)) := shiftCode]
  }

  /** Key k is the (employee, date) key of one of the days 1..n. */
  predicate MonthKey(k: (string, string), employeeId: string, y: int, m: int, n: nat)
  {
    k.0 == employeeId && exists d :: 1 <= d <= n && k.1 == DateString(y, m, d)
  }

  lemma MonthKeyStep(k: (string, string), employeeId: string, y: int, m: int, n: nat)
    requires n > 0
    ensures MonthKey(k, employeeId, y, m, n) <==> MonthKey(k, employeeId, y, m, n - 1) || k == (employeeId, DateString(y, m, n))
  {
    if MonthKey(k, employeeId, y, m, n) && k != (employeeId, DateString(y, m, n)) {
      var d :| 1 <= d <= n && k.1 == DateString(y, m, d);
      assert d < n;
    }
    if MonthKey(k, employeeId, y, m, n - 1) {
      var d :| 1 <= d <= n - 1 && k.1 == DateString(y, m, d);
      assert 1 <= d <= n;
    }
  }

  /**
   * Exactly the keys of the days 1..n are added or overwritten, all with the
   * code; every other assignment is kept.
   */
  lemma {:induction false} AssignDaysAt(a: map<(string, string), Option<string>>, employeeId: string,
                                        shiftCode: Option<string>, y: int, m: int, n: nat, k: (string, string))
    ensures k in AssignDays(a, employeeId, shiftCode, y, m, n) <==> k in a || MonthKey(k, employeeId, y, m, n)
    ensures k in AssignDays(a, employeeId, shiftCode, y, m, n) ==>
      AssignDays(a, employeeId, shiftCode, y, m, n)[k] == if MonthKey(k, employeeId, y, m, n) then shiftCode else a[k]
    decreases n
  {
    if n > 0 {
      AssignDaysAt(a, employeeId, shiftCode, y, m, n - 1, k);
      MonthKeyStep(k, employeeId, y, m, n);
    }
  }

  /** Every day 1..n of the month holds the code afterwards. */
  lemma AssignDaysDay(a: map<(string, string), Option<string>>, employeeId: string,
                      shiftCode: Option<string>, y: int, m: int, n: nat, d: nat)
    requires 1 <= d <= n
    ensures (employeeId, DateString(y, m, d)) in AssignDays(a, employeeId, shiftCode, y, m, n)
    ensures AssignDays(a, employeeId, shiftCode, y, m, n)[(employeeId, DateString(y, m, d))] == shiftCode
  {
    assert MonthKey((employeeId, DateString(y, m, d)), employeeId, y, m, n);
    AssignDaysAt(a, employeeId, shiftCode, y, m, n, (employeeId, DateString(y, m, d)));
  }

  /** `bulk_assign_shift_for_month`: None where Python raises (a malformed year-month or a month outside 1..12). */
  function BulkAssign(s: Store, employeeId: string, shiftCode: Option<string>, yearMonth: string): Option<Store>
  {
    match ParseYearMonth(yearMonth)
    case None => None
    case Some((y, m)) =>
      if 1 <= m <= 12 then Some(s.(assignments := AssignDays(s.assignments, employeeId, shiftCode, y, m, DaysInMonth(y, m))))
      else None
  }

  // ---------------------------------------------------------------------
  // Ingesting blocks

  const MonthAbbrs: seq<string> := ["jan", "feb", "mar", "apr", "may", "jun", "jul", "aug", "sep", "oct", "nov", "dec"]

  /** The month number of a lower-case abbreviation: its place in the year, January for an unknown one. */
  function MonthIndex(abbr: string): (k: nat)
    ensures 1 <= k <= 12
  {
    match FirstWhere(MonthAbbrs, (a: string) => a == abbr, 0, 12)
    case None => 1
    case Some(i) => i + 1
  }

  /** `mm_map.get(abbr, '01')`: the month number, zero-padded. */
  function MonthNumber(abbr: string): string
  {
    Pad2(MonthIndex(abbr))
  }

  /** A known abbreviation gives its own month; an unknown one gives "01"; either way two digits 01..12. */
  lemma MonthNumberSpec(abbr: string)
    ensures abbr in MonthAbbrs ==> MonthAbbrs[MonthIndex(abbr) - 1] == abbr
    ensures abbr !in MonthAbbrs ==> MonthNumber(abbr) == "01"
    ensures |MonthNumber(abbr)| == 2 && AllDigits(MonthNumber(abbr)) && 1 <= DigitsValue(MonthNumber(abbr)) <= 12
  {
    var p := (a: string) => a == abbr;
    FirstWhereSpec(MonthAbbrs, p, 0, 12);
    if abbr in MonthAbbrs {
      var i :| 0 <= i < 12 && MonthAbbrs[i] == abbr;
      assert p(MonthAbbrs[i]);
    } else {
      assert forall i :: 0 <= i < 12 ==> !p(MonthAbbrs[i]);
      assert NatToString(1) == "1";
    }
    Pad2Digits(MonthIndex(abbr));
  }

  /**
   * The year-month of a month label: with the spaces removed it must hold
   * exactly one '-'; the year is the text after it, the month the first
   * three letters before it.
   */
  function LabelYearMonth(monthLabel: string): (r: Option<string>)
  {
    var parts := Split(RemoveChar(monthLabel, ' '), '-');
    if |parts| != 2 then None
    else Some(parts[1] + "-" + MonthNumber(Lower(parts[0][..Min(3, |parts[0]|)])))
  }

  /** The year-month the dates of a block use; "" for none (Python's None and "" alike). */
  function ChosenYearMonth(yearMonth: string, monthLabel: string): string
  {
    if yearMonth != "" || monthLabel == "" then yearMonth
    else match LabelYearMonth(monthLabel)
      case None => yearMonth
      case Some(ym) => ym
  }

  /** An explicit year-month wins over the label; one read from the label ends in "-" and a month 01..12. */
  lemma ChosenYearMonthSpec(yearMonth: string, monthLabel: string)
    ensures yearMonth != "" ==> ChosenYearMonth(yearMonth, monthLabel) == yearMonth
    ensures yearMonth == "" && LabelYearMonth(monthLabel).Some? && monthLabel != "" ==>
      var ym := ChosenYearMonth(yearMonth, monthLabel);
      |ym| >= 3 && ym[|ym| - 3] == '-' && AllDigits(ym[|ym| - 2..]) && 1 <= DigitsValue(ym[|ym| - 2..]) <= 12
  {
    if yearMonth == "" && LabelYearMonth(monthLabel).Some? && monthLabel != "" {
      var parts := Split(RemoveChar(monthLabel, ' '), '-');
      var abbr := Lower(parts[0][..Min(3, |parts[0]|)]);
      MonthNumberSpec(abbr);
      var ym := parts[1] + "-" + MonthNumber(abbr);
      assert ym[|ym| - 2..] == MonthNumber(abbr);
    }
  }

  /**
   * The date string of day `day`: with a year-month, its year part and its
   * month part as an integer, zero-padded; without one, the current
   * year and month. None where Python raises (not exactly one '-', or a
   * month part that is not an integer).
   */
  function DayString(ym: string, today: (int, int), day: nat): Option<string>
  {
    match MonthPrefix(ym, today)
    case None => None
    case Some(prefix) => Some(prefix + "-" + Pad2(day))
  }

  /** The "year-month" part shared by every date of a block, or None where Python raises. */
  function MonthPrefix(ym: string, today: (int, int)): Option<string>
  {
    if ym != "" then
      var parts := Split(ym, '-');
      if |parts| != 2 then None
      else match ParseInt(parts[1])
        case None => None
        case Some(m) => Some(parts[0] + "-" + Pad2(m))
    else Some(IntToString(today.0) + "-" + Pad2(today.1))
  }

  /** The document a record is ingested as: raw punches and status stripped, metrics zero, flags false. */
  function IngestDoc(empId: string, name: string, dept: string, date: string, rec: DailyRecord): DailyDoc
  {
    DailyDoc(empId, name, dept, date, Trim(rec.inTime), Trim(rec.outTime), Trim(rec.status), Trim(rec.status),
             0, 0, 0, 0, false, false, false, None)
  }

  /** What one daily record gives: nothing without a day, an error where its date cannot be built, or a document. */
  datatype Ingested = Skipped | Failed | Ingested(doc: DailyDoc)

  /** The loop body of `ingest_blocks_to_db` for one record. */
  function RecordIngest(ym: string, today: (int, int), empId: string, name: string, dept: string,
                        rec: DailyRecord): Ingested
  {
    if rec.day == 0 then Skipped
    else match DayString(ym, today, rec.day)
      case None => Failed
      case Some(date) => Ingested(IngestDoc(empId, name, dept, date, rec))
  }

  /** `RecordIngest` for one block's year-month and employee. */
  function Ingester(ym: string, today: (int, int), empId: string, name: string, dept: string): DailyRecord -> Ingested
  {
    rec => RecordIngest(ym, today, empId, name, dept, rec)
  }

  /** What each record of a block gives, in record order. */
  function BlockResults(daily: seq<DailyRecord>, ym: string, today: (int, int),
                        empId: string, name: string, dept: string): seq<Ingested>
  {
    Mapped(daily, Ingester(ym, today, empId, name, dept))
  }

  /** The documents the first n results give, in order; None once one of them failed. */
  function BlockDocs(rs: seq<Ingested>, n: nat): Option<seq<DailyDoc>>
    requires n <= |rs|
  {
    if n == 0 then Some([])
    else match BlockDocs(rs, n - 1)
      case None => None
      case Some(docs) =>
        match rs[n - 1]
        case Skipped => Some(docs)
        case Failed => None
        case Ingested(d) => Some(docs + [d])
  }

  /** The number of the first n records that carry a day. */
  function DayCount(daily: seq<DailyRecord>, n: nat): nat
    requires n <= |daily|
  {
    if n == 0 then 0 else DayCount(daily, n - 1) + (if daily[n - 1].day == 0 then 0 else 1)
  }

  /** A fresh document: its metrics are zero and its flags false. */
  predicate Fresh(d: DailyDoc)
  {
    d.workMinutes == 0 && d.otMinutes == 0 && d.lateMinutes == 0 && d.earlyExitMinutes == 0
    && !d.overnight && !d.wrongShift && !d.missPunch && d.assignedShiftCode.None?
  }

  /**
   * A record is skipped exactly when it has no day; it fails exactly when
   * it has one and the year-month cannot be read; otherwise it gives a
   * fresh document of the block's employee on a date of that year-month.
   */
  lemma IngesterSpec(ym: string, today: (int, int), empId: string, name: string, dept: string, rec: DailyRecord)
    ensures var r := Ingester(ym, today, empId, name, dept)(rec);
      && (r.Skipped? <==> rec.day == 0)
      && (r.Failed? <==> rec.day != 0 && MonthPrefix(ym, today).None?)
      && (MonthPrefix(ym, today).None? <==>
            ym != "" && (|Split(ym, '-')| != 2 || ParseInt(Split(ym, '-')[1]).None?))
      && (ym == "" && rec.day != 0 ==>
            r.Ingested? && r.doc.date == IntToString(today.0) + "-" + Pad2(today.1) + "-" + Pad2(rec.day))
      && (r.Ingested? ==> Fresh(r.doc) && r.doc.employeeId == empId
                          && r.doc.date == MonthPrefix(ym, today).value + "-" + Pad2(rec.day))
  {
  }

  /** A record without a day is skipped and every other record gives one document, in record order. */
  lemma {:induction false} BlockDocsCount(daily: seq<DailyRecord>, rs: seq<Ingested>, n: nat)
    requires n <= |daily| == |rs|
    requires forall k :: 0 <= k < n ==> (rs[k].Skipped? <==> daily[k].day == 0)
    ensures BlockDocs(rs, n).Some? ==> |BlockDocs(rs, n).value| == DayCount(daily, n)
    decreases n
  {
    if n > 0 {
      BlockDocsCount(daily, rs, n - 1);
    }
  }

  /** Every document of a block is a fresh one of its employee when every record's is. */
  lemma {:induction false} BlockDocsSpec(rs: seq<Ingested>, n: nat, empId: string)
    requires n <= |rs|
    requires forall k :: 0 <= k < n && rs[k].Ingested? ==> Fresh(rs[k].doc) && rs[k].doc.employeeId == empId
    ensures BlockDocs(rs, n).Some? ==>
      forall k :: 0 <= k < |BlockDocs(rs, n).value| ==>
        Fresh(BlockDocs(rs, n).value[k]) && BlockDocs(rs, n).value[k].employeeId == empId
    decreases n
  {
    if n > 0 {
      BlockDocsSpec(rs, n - 1, empId);
      if BlockDocs(rs, n - 1).Some? && rs[n - 1].Ingested? {
        var docs := BlockDocs(rs, n - 1).value + [rs[n - 1].doc];
        assert BlockDocs(rs, n).value == docs;
        forall k | 0 <= k < |docs|
          ensures Fresh(docs[k]) && docs[k].employeeId == empId
        {
          if k < |docs| - 1 {
            assert docs[k] == BlockDocs(rs, n - 1).value[k];
          }
        }
      }
    }
  }

  /** A failing record fails the block, whatever comes before or after it. */
  lemma {:induction false} BlockDocsFail(rs: seq<Ingested>, n: nat, k: nat)
    requires k < n <= |rs| && rs[k].Failed?
    ensures BlockDocs(rs, n).None?
    decreases n
  {
    if n - 1 > k {
      BlockDocsFail(rs, n - 1, k);
    }
  }

  /** The results of a block, each as `IngesterSpec` describes. */
  lemma BlockResultsSpec(daily: seq<DailyRecord>, ym: string, today: (int, int),
                         empId: string, name: string, dept: string, k: nat)
    requires k < |daily|
    ensures var r := BlockResults(daily, ym, today, empId, name, dept)[k];
      && (r.Skipped? <==> daily[k].day == 0)
      && (r.Failed? <==> daily[k].day != 0 && MonthPrefix(ym, today).None?)
      && (r.Ingested? ==> Fresh(r.doc) && r.doc.employeeId == empId)
  {
    MappedAt(daily, Ingester(ym, today, empId, name, dept), k);
    IngesterSpec(ym, today, empId, name, dept, daily[k]);
  }

  /** The daily documents after the first n upserts of `ops`: each keyed by (employee, date). */
  function ApplyOps(m: map<(string, string), DailyDoc>, ops: seq<DailyDoc>, n: nat): map<(string, string), DailyDoc>
    requires n <= |ops|
  {
    if n == 0 then m else ApplyOps(m, ops, n - 1)[DocKey(ops[n - 1]) := ops[n - 1]]
  }

  /** The test "this document has key `key`". */
  function KeyIs(key: (string, string)): DailyDoc -> bool
  {
    (d: DailyDoc) => DocKey(d) == key
  }

  /** After the upserts a key holds the last document written under it, or its old document. */
  lemma {:induction false} ApplyOpsAt(m: map<(string, string), DailyDoc>, ops: seq<DailyDoc>, n: nat, key: (string, string))
    requires n <= |ops|
    ensures key in ApplyOps(m, ops, n) <==> key in m || LastWhere(ops, KeyIs(key), 0, n).Some?
    ensures key in ApplyOps(m, ops, n) ==>
      ApplyOps(m, ops, n)[key] == match LastWhere(ops, KeyIs(key), 0, n) case Some(k) => ops[k] case None => m[key]
    decreases n
  {
    if n > 0 {
      ApplyOpsAt(m, ops, n - 1, key);
    }
  }

  /**
   * Upserting by key: a key is present afterwards exactly when it was before
   * or some document carries it; it then holds the last document written
   * under it, or else its old document.
   */
  lemma ApplyOpsSpec(m: map<(string, string), DailyDoc>, ops: seq<DailyDoc>, n: nat, key: (string, string))
    requires n <= |ops|
    ensures key in ApplyOps(m, ops, n) <==> key in m || exists k :: 0 <= k < n && DocKey(ops[k]) == key
    ensures forall k :: 0 <= k < n && DocKey(ops[k]) == key && (forall j :: k < j < n ==> DocKey(ops[j]) != key) ==>
      ApplyOps(m, ops, n)[key] == ops[k]
    ensures key in m && (forall k :: 0 <= k < n ==> DocKey(ops[k]) != key) ==> ApplyOps(m, ops, n)[key] == m[key]
  {
    var p := KeyIs(key);
    ApplyOpsAt(m, ops, n, key);
    LastWhereSpec(ops, p, 0, n);
    assert forall k :: 0 <= k < n ==> (p(ops[k]) <==> DocKey(ops[k]) == key);
    var r := LastWhere(ops, p, 0, n);
    if r.Some? {
      forall k | 0 <= k < n && DocKey(ops[k]) == key && (forall j :: k < j < n ==> DocKey(ops[j]) != key)
        ensures k == r.value
      {
      }
    }
  }

  /** The state of `ingest_blocks_to_db` after some blocks: the store, the pending daily upserts, and whether it raised. */
  datatype IngestState = IngestState(store: Store, ops: seq<DailyDoc>, failed: bool)

  /** One block: its employee is upserted at once; its documents join the pending upserts. */
  function IngestBlock(st: IngestState, b: Block, yearMonth: string, today: (int, int)): IngestState
  {
    var empId, name, dept := Trim(b.empcode), Trim(b.name), Trim(b.dept);
    var store := WithEmployee(st.store, empId, name, dept, None);
    match BlockDocs(BlockResults(b.daily, ChosenYearMonth(yearMonth, b.month), today, empId, name, dept), |b.daily|)
    case None => IngestState(store, st.ops, true)
    case Some(docs) => IngestState(store, st.ops + docs, false)
  }

  /** The state after the first n blocks; a raised error stops the loop. */
  function IngestPrefix(s: Store, blocks: seq<Block>, n: nat, yearMonth: string, today: (int, int)): IngestState
    requires n <= |blocks|
  {
    if n == 0 then IngestState(s, [], false)
    else
      var st := IngestPrefix(s, blocks, n - 1, yearMonth, today);
      if st.failed then st else IngestBlock(st, blocks[n - 1], yearMonth, today)
  }

  /**
   * `ingest_blocks_to_db`: the new store and whether it returned normally.
   * When it raises, the employee upserts already made stay and no daily
   * document is written.
   */
  function Ingest(s: Store, blocks: seq<Block>, yearMonth: string, today: (int, int)): (Store, bool)
  {
    var st := IngestPrefix(s, blocks, |blocks|, yearMonth, today);
    if st.failed then (st.store, false)
    else (st.store.(attendanceDaily := ApplyOps(st.store.attendanceDaily, st.ops, |st.ops|)), true)
  }

  /** Ingestion writes no shift and no assignment, and pending documents are all fresh. */
  lemma {:induction false} IngestPrefixSpec(s: Store, blocks: seq<Block>, n: nat, yearMonth: string, today: (int, int))
    requires n <= |blocks|
    ensures var st := IngestPrefix(s, blocks, n, yearMonth, today);
      st.store.shiftMaster == s.shiftMaster && st.store.assignments == s.assignments
      && st.store.attendanceDaily == s.attendanceDaily
      && forall k :: 0 <= k < |st.ops| ==> Fresh(st.ops[k])
    decreases n
  {
    if n > 0 {
      IngestPrefixSpec(s, blocks, n - 1, yearMonth, today);
      var st := IngestPrefix(s, blocks, n - 1, yearMonth, today);
      if !st.failed {
        var b := blocks[n - 1];
        var empId, name, dept := Trim(b.empcode), Trim(b.name), Trim(b.dept);
        var ym := ChosenYearMonth(yearMonth, b.month);
        var rs := BlockResults(b.daily, ym, today, empId, name, dept);
        forall k | 0 <= k < |b.daily|
          ensures rs[k].Ingested? ==> Fresh(rs[k].doc) && rs[k].doc.employeeId == empId
        {
          BlockResultsSpec(b.daily, ym, today, empId, name, dept, k);
        }
        BlockDocsSpec(rs, |b.daily|, empId);
      }
    }
  }

  // ---------------------------------------------------------------------
  // The database

  class Db {
    var employees: map<string, Employee>
    var shiftMaster: map<string, ShiftMaster>
    var assignments: map<(string, string), Option<string>>
    var attendanceDaily: map<(string, string), DailyDoc>

    constructor (s: Store)
      ensures State() == s
    {
      employees := s.employees;
      shiftMaster := s.shiftMaster;
      assignments := s.assignments;
      attendanceDaily := s.attendanceDaily;
    }

    function State(): Store
      reads this
    {
      Store(employees, shiftMaster, assignments, attendanceDaily)
    }

    method UpsertEmployee(empId: string, name: string, department: string, defaultShift: Option<string> := None)
      modifies this
      ensures State() == WithEmployee(old(State()), empId, name, department, defaultShift)
    {
      if empId == "" {
        return;
      }
      employees := employees[empId := Employee(name, department, defaultShift, "Active")];
    }

    /** Writes the shift under its code and returns the stored record. */
    method UpsertShiftMaster(shiftCode: string, intervals: seq<Interval>, weeklyOff: Option<seq<string>> := None,
                             graceMinutes: int := 10, breakMinutes: int := 60, description: string := "")
      returns (stored: ShiftMaster)
      modifies this
      ensures State() == WithShift(old(State()), ShiftDoc(shiftCode, intervals, weeklyOff, graceMinutes, breakMinutes, description))
      ensures stored == shiftMaster[shiftCode]
    {
      var off := if weeklyOff.None? || weeklyOff.value == [] then [] else weeklyOff.value;
      var doc := ShiftMaster(shiftCode, intervals, off, graceMinutes, breakMinutes, description);
      shiftMaster := shiftMaster[shiftCode := doc];
      stored := shiftMaster[shiftCode];
    }

    method AssignShiftToEmployeeOnDate(employeeId: string, shiftCode: Option<string>, date: string)
      modifies this
      ensures State() == WithAssignment(old(State()), employeeId, shiftCode, date)
    {
      assignments := assignments[(employeeId, date) := shiftCode];
    }

    /** Assigns the code to every day of the month; false where Python raises, with nothing written. */
    method BulkAssignShiftForMonth(employeeId: string, shiftCode: Option<string>, yearMonth: string) returns (ok: bool)
      modifies this
      ensures ok == BulkAssign(old(State()), employeeId, shiftCode, yearMonth).Some?
      ensures State() == (if ok then BulkAssign(old(State()), employeeId, shiftCode, yearMonth).value else old(State()))
    {
      var parsed := ParseYearMonth(yearMonth);
      if parsed.None? {
        return false;
      }
      var (y, m) := parsed.value;
      if !(1 <= m <= 12) {
        return false;
      }
      assignments := AssignMonth(assignments, employeeId, shiftCode, y, m, DaysInMonth(y, m));
      return true;
    }

    /** The day loop of `bulk_assign_shift_for_month`: one upsert per day 1..n. */
    static method AssignMonth(a: map<(string, string), Option<string>>, employeeId: string, shiftCode: Option<string>,
                              y: int, m: int, n: nat) returns (written: map<(string, string), Option<string>>)
      ensures written == AssignDays(a, employeeId, shiftCode, y, m, n)
    {
      written := a;
      var day := 1;
      while day <= n
        invariant 1 <= day <= n + 1
        invariant written == AssignDays(a, employeeId, shiftCode, y, m, day - 1)
      {
        written := written[(employeeId, DateString(y, m, day)) := shiftCode];
        day := day + 1;
      }
    }

    /** The date and document loop of one block; None where a date cannot be built. */
    static method BlockOps(daily: seq<DailyRecord>, ym: string, today: (int, int),
                           empId: string, name: string, dept: string) returns (docs: Option<seq<DailyDoc>>)
      ensures docs == BlockDocs(BlockResults(daily, ym, today, empId, name, dept), |daily|)
    {
      ghost var rs := BlockResults(daily, ym, today, empId, name, dept);
      var out: seq<DailyDoc> := [];
      var k := 0;
      while k < |daily|
        invariant 0 <= k <= |daily|
        invariant BlockDocs(rs, k) == Some(out)
      {
        var r := RecordOp(daily, k, ym, today, empId, name, dept);
        if r.Failed? {
          BlockDocsFail(rs, |daily|, k);
          return None;
        }
        if r.Ingested? {
          out := out + [r.doc];
        }
        k := k + 1;
      }
      return Some(out);
    }

    /** One record of the loop: skipped without a day, else its date built and its document made. */
    static method RecordOp(daily: seq<DailyRecord>, k: nat, ym: string, today: (int, int),
                           empId: string, name: string, dept: string) returns (r: Ingested)
      requires k < |daily|
      ensures r == BlockResults(daily, ym, today, empId, name, dept)[k]
    {
      MappedAt(daily, Ingester(ym, today, empId, name, dept), k);
      var rec := daily[k];
      if rec.day == 0 {
        return Skipped;
      }
      var date := DayString(ym, today, rec.day);
      if date.None? {
        return Failed;
      }
      return Ingested(IngestDoc(empId, name, dept, date.value, rec));
    }

    /** One block of `ingest_blocks_to_db`. */
    method IngestOne(b: Block, yearMonth: string, today: (int, int), ops: seq<DailyDoc>)
      returns (ops': seq<DailyDoc>, failed: bool)
      modifies this
      ensures IngestState(State(), ops', failed) == IngestBlock(IngestState(old(State()), ops, false), b, yearMonth, today)
    {
      var empId, name, dept := Trim(b.empcode), Trim(b.name), Trim(b.dept);
      var ym := yearMonth;
      if ym == "" && b.month != "" {
        var fromLabel := LabelYearMonth(b.month);
        if fromLabel.Some? {
          ym := fromLabel.value;
        }
      }
      UpsertEmployee(empId, name, dept);
      var docs := BlockOps(b.daily, ym, today, empId, name, dept);
      if docs.None? {
        return ops, true;
      }
      return ops + docs.value, false;
    }

    /** The bulk write: every pending document upserted by (employee, date), in order. */
    method WriteDaily(ops: seq<DailyDoc>)
      modifies this
      ensures State() == old(State()).(attendanceDaily := ApplyOps(old(attendanceDaily), ops, |ops|))
    {
      var k := 0;
      while k < |ops|
        invariant 0 <= k <= |ops|
        invariant State() == old(State()).(attendanceDaily := ApplyOps(old(attendanceDaily), ops, k))
      {
        attendanceDaily := attendanceDaily[DocKey(ops[k]) := ops[k]];
        k := k + 1;
      }
    }

    /** `ingest_blocks_to_db`; false where Python raises. */
    method IngestBlocksToDb(blocks: seq<Block>, yearMonth: string, today: (int, int)) returns (ok: bool)
      modifies this
      ensures (State(), ok) == Ingest(old(State()), blocks, yearMonth, today)
    {
      var ops: seq<DailyDoc> := [];
      var k := 0;
      while k < |blocks|
        invariant 0 <= k <= |blocks|
        invariant IngestPrefix(old(State()), blocks, k, yearMonth, today) == IngestState(State(), ops, false)
      {
        var failed;
        ghost var before := IngestState(State(), ops, false);
        ops, failed := IngestOne(blocks[k], yearMonth, today, ops);
        assert IngestPrefix(old(State()), blocks, k + 1, yearMonth, today) == IngestBlock(before, blocks[k], yearMonth, today);
        if failed {
          IngestStopped(old(State()), blocks, k + 1, yearMonth, today);
          return false;
        }
        k := k + 1;
      }
      WriteDaily(ops);
      return true;
    }
  }

  /** Once a block fails, the state stays put for every longer prefix. */
  lemma {:induction false} IngestStopped(s: Store, blocks: seq<Block>, n: nat, yearMonth: string, today: (int, int))
    requires 0 < n <= |blocks| && IngestPrefix(s, blocks, n, yearMonth, today).failed
    ensures IngestPrefix(s, blocks, |blocks|, yearMonth, today) == IngestPrefix(s, blocks, n, yearMonth, today)
    decreases |blocks| - n
  {
    if n < |blocks| {
      assert IngestPrefix(s, blocks, n + 1, yearMonth, today) == IngestPrefix(s, blocks, n, yearMonth, today);
      IngestStopped(s, blocks, n + 1, yearMonth, today);
    }
  }
}
