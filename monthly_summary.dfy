/**
 * The monthly summary: the number of Monday-to-Friday days of a month, the
 * `$group` stage that folds a month's daily documents into one group of
 * status counts per employee, and the loop that turns each group into a
 * summary document with its FM status, upserted by (employee, year-month).
 *
 * The daily collection is given as the sequence the database would scan and
 * the summary collection as a map that the loop returns updated. The
 * floating-point hour sums are not part of the model.
 */
module MonthlySummary {

  import opened Wrappers
  import opened Text
  import opened Calendar
  import opened MongoHelpers
  import opened MvaSummary

  // ---------------------------------------------------------------------
  // Working days

  /** The year and month of a year-month text, if Python can build a date of that month. */
  function SummaryMonth(yearMonth: string): Option<(int, int)>
  {
    match ParseYearMonth(yearMonth)
    case None => None
    case Some((y, m)) => if 1 <= y <= 9999 && 1 <= m <= 12 then Some((y, m)) else None
  }

  /** `calc_total_working_days`: the Monday-to-Friday days of the month, 26 where anything raises. */
  function WorkingDays(yearMonth: string): nat
  {
    match SummaryMonth(yearMonth)
    case None => 26
    case Some((y, m)) => WorkdaysInMonthPrefix(y, m, DaysInMonth(y, m))
  }

  /** A month has 20 to 23 working days and no more than its days; 26 is the failure value and nothing else. */
  lemma WorkingDaysSpec(yearMonth: string)
    ensures SummaryMonth(yearMonth).Some? ==>
      var (y, m) := SummaryMonth(yearMonth).value;
      20 <= WorkingDays(yearMonth) <= 23 && WorkingDays(yearMonth) <= DaysInMonth(y, m)
    ensures WorkingDays(yearMonth) == 26 <==> SummaryMonth(yearMonth).None?
  {
    if SummaryMonth(yearMonth).Some? {
      var (y, m) := SummaryMonth(yearMonth).value;
      MonthWorkdays(y, m);
    }
  }

  /** The loop of `calc_total_working_days`, with its failure value. */
  method CalcTotalWorkingDays(yearMonth: string) returns (total: nat)
    ensures total == WorkingDays(yearMonth)
  {
    var month := SummaryMonth(yearMonth);
    if month.None? {
      return 26;
    }
    var (y, m) := month.value;
    total := 0;
    var day := 1;
    while day <= DaysInMonth(y, m)
      invariant 1 <= day <= DaysInMonth(y, m) + 1
      invariant total == WorkdaysInMonthPrefix(y, m, day - 1)
    {
      if Weekday(y, m, day) < 5 {
        total := total + 1;
      }
      day := day + 1;
    }
  }

  // ---------------------------------------------------------------------
  // The `$group` stage

  /** One employee's group: the status counts and the other per-day tallies. */
  datatype Group = Group(presentDays: nat, halfDays: nat, leaves: nat, weekOffs: nat, absentDays: nat,
                         wrongShifts: nat, missPunches: nat, lateOccurrences: nat, totalLateMinutes: int,
                         countDays: nat)

  const NoGroup := Group(0, 0, 0, 0, 0, 0, 0, 0, 0, 0)

  /** The statuses counted as a present day. */
  predicate PresentStatus(status: string)
  {
    status == "P" || status == "P OT" || status == "POT" || status == "POT:"
  }

  /** The `$sum` of each accumulator over one more document. */
  function AddDoc(g: Group, d: DailyDoc): Group
  {
    Group(g.presentDays + (if PresentStatus(d.status) then 1 else 0),
          g.halfDays + (if d.status == "H" then 1 else 0),
          g.leaves + (if d.status == "L" then 1 else 0),
          g.weekOffs + (if d.status == "WO" then 1 else 0),
          g.absentDays + (if d.status == "A" then 1 else 0),
          g.wrongShifts + (if d.wrongShift then 1 else 0),
          g.missPunches + (if d.missPunch then 1 else 0),
          g.lateOccurrences + (if d.lateMinutes > 0 then 1 else 0),
          g.totalLateMinutes + d.lateMinutes,
          g.countDays + 1)
  }

  /** The `$match` stage: the date begins with the year-month. */
  predicate InMonth(d: DailyDoc, yearMonth: string)
  {
    StartsWith(d.date, yearMonth)
  }

  /** The group of one employee over the first n documents: the reference the stage is measured against. */
  function GroupOf(docs: seq<DailyDoc>, yearMonth: string, employeeId: string, n: nat): Group
    requires n <= |docs|
  {
    if n == 0 then NoGroup
    else
      var g := GroupOf(docs, yearMonth, employeeId, n - 1);
      var d := docs[n - 1];
      if InMonth(d, yearMonth) && d.employeeId == employeeId then AddDoc(g, d) else g
  }

  /**
   * The five status counts are exact matches of distinct codes, so together
   * they count each document at most once; late occurrences are documents too.
   */
  lemma {:induction false} GroupBounds(docs: seq<DailyDoc>, yearMonth: string, employeeId: string, n: nat)
    requires n <= |docs|
    ensures var g := GroupOf(docs, yearMonth, employeeId, n);
      g.presentDays + g.halfDays + g.leaves + g.weekOffs + g.absentDays <= g.countDays
      && g.lateOccurrences <= g.countDays && g.wrongShifts <= g.countDays && g.missPunches <= g.countDays
      && g.countDays <= n
    decreases n
  {
    if n > 0 {
      GroupBounds(docs, yearMonth, employeeId, n - 1);
    }
  }

  /**
   * The stage as one pass over the documents: the groups by employee, and
   * the employees in the order their first document came.
   */
  function GroupStage(docs: seq<DailyDoc>, yearMonth: string, n: nat): (map<string, Group>, seq<string>)
    requires n <= |docs|
  {
    if n == 0 then (map[], [])
    else
      var (groups, order) := GroupStage(docs, yearMonth, n - 1);
      var d := docs[n - 1];
      if !InMonth(d, yearMonth) then (groups, order)
      else if d.employeeId in groups then (groups[d.employeeId := AddDoc(groups[d.employeeId], d)], order)
      else (groups[d.employeeId := AddDoc(NoGroup, d)], order + [d.employeeId])
  }

  /** Employee e has a document of the month among the first n. */
  predicate HasDoc(docs: seq<DailyDoc>, yearMonth: string, e: string, n: nat)
    requires n <= |docs|
  {
    exists k :: 0 <= k < n && InMonth(docs[k], yearMonth) && docs[k].employeeId == e
  }

  /** The one-pass stage gives each employee with a document of the month exactly its reference group. */
  lemma {:induction false} GroupStageAt(docs: seq<DailyDoc>, yearMonth: string, n: nat, e: string)
    requires n <= |docs|
    ensures e in GroupStage(docs, yearMonth, n).0 <==> HasDoc(docs, yearMonth, e, n)
    ensures e in GroupStage(docs, yearMonth, n).0 ==> GroupStage(docs, yearMonth, n).0[e] == GroupOf(docs, yearMonth, e, n)
    ensures e !in GroupStage(docs, yearMonth, n).0 ==> GroupOf(docs, yearMonth, e, n) == NoGroup
    decreases n
  {
    if n > 0 {
      GroupStageAt(docs, yearMonth, n - 1, e);
      var d := docs[n - 1];
      if InMonth(d, yearMonth) && d.employeeId == e {
        assert HasDoc(docs, yearMonth, e, n);
      }
      if HasDoc(docs, yearMonth, e, n) && !(InMonth(d, yearMonth) && d.employeeId == e) {
        var k :| 0 <= k < n && InMonth(docs[k], yearMonth) && docs[k].employeeId == e;
        assert k < n - 1;
        assert HasDoc(docs, yearMonth, e, n - 1);
      }
      if HasDoc(docs, yearMonth, e, n - 1) {
        var k :| 0 <= k < n - 1 && InMonth(docs[k], yearMonth) && docs[k].employeeId == e;
        assert HasDoc(docs, yearMonth, e, n);
      }
    }
  }

  /** The employee order lists each group exactly once. */
  lemma {:induction false} GroupOrder(docs: seq<DailyDoc>, yearMonth: string, n: nat)
    requires n <= |docs|
    ensures forall e :: e in GroupStage(docs, yearMonth, n).1 <==> e in GroupStage(docs, yearMonth, n).0
    ensures forall i, j :: 0 <= i < j < |GroupStage(docs, yearMonth, n).1| ==>
      GroupStage(docs, yearMonth, n).1[i] != GroupStage(docs, yearMonth, n).1[j]
    decreases n
  {
    if n > 0 {
      GroupOrder(docs, yearMonth, n - 1);
      var (groups, order) := GroupStage(docs, yearMonth, n - 1);
      var d := docs[n - 1];
      if InMonth(d, yearMonth) && d.employeeId !in groups {
        assert GroupStage(docs, yearMonth, n).1 == order + [d.employeeId];
        assert d.employeeId !in order;
      }
    }
  }

  /** The stage's order holds exactly the employees with a document of the month. */
  lemma StageEmployees(docs: seq<DailyDoc>, yearMonth: string, e: string)
    ensures e in GroupStage(docs, yearMonth, |docs|).1 <==> HasDoc(docs, yearMonth, e, |docs|)
  {
    GroupOrder(docs, yearMonth, |docs|);
    GroupStageAt(docs, yearMonth, |docs|, e);
  }

  // ---------------------------------------------------------------------
  // The summary documents

  /** A summary document; name and department are absent for an employee without a record. */
  datatype SummaryDoc = SummaryDoc(employeeId: string, employeeName: Option<string>, department: Option<string>,
                                   yearMonth: string, presentDays: nat, halfDays: nat, leaves: nat, weekOffs: nat,
                                   absentDays: nat, wrongShifts: nat, missPunches: nat, lateOccurrences: nat,
                                   totalLateMinutes: int, fmStatus: string)

  /** The summary of one group, the employee's record joined in by id. */
  function SummaryOf(e: string, g: Group, employees: map<string, Employee>, yearMonth: string, totalWorkingDays: int): SummaryDoc
  {
    SummaryDoc(e, if e in employees then Some(employees[e].name) else None,
               if e in employees then Some(employees[e].department) else None,
               yearMonth, g.presentDays, g.halfDays, g.leaves, g.weekOffs, g.absentDays, g.wrongShifts,
               g.missPunches, g.lateOccurrences, g.totalLateMinutes,
               FmStatusText(g.presentDays, g.halfDays, g.leaves, g.absentDays, g.weekOffs, totalWorkingDays))
  }

  /** The summaries of `out` upserted in order by (employee, year-month). */
  function Upserted(store: map<(string, string), SummaryDoc>, out: seq<SummaryDoc>): map<(string, string), SummaryDoc>
  {
    if out == [] then store
    else
      var last := out[|out| - 1];
      Upserted(store, out[..|out| - 1])[(last.employeeId, last.yearMonth) := last]
  }

  /** The summary of employee e from its reference group over all documents. */
  function ReferenceSummary(docs: seq<DailyDoc>, yearMonth: string, employees: map<string, Employee>, e: string): SummaryDoc
  {
    SummaryOf(e, GroupOf(docs, yearMonth, e, |docs|), employees, yearMonth, WorkingDays(yearMonth))
  }

  /** The summary of one group, as the loop body of `generate_monthly_summary` builds it. */
  method SummarizeGroup(e: string, g: Group, employees: map<string, Employee>, yearMonth: string, totalWorkingDays: int)
    returns (doc: SummaryDoc)
    ensures doc == SummaryOf(e, g, employees, yearMonth, totalWorkingDays)
  {
    var name: Option<string> := None;
    var dept: Option<string> := None;
    if e in employees {
      name := Some(employees[e].name);
      dept := Some(employees[e].department);
    }
    var fm := FmStatusText(g.presentDays, g.halfDays, g.leaves, g.absentDays, g.weekOffs, totalWorkingDays);
    doc := SummaryDoc(e, name, dept, yearMonth, g.presentDays, g.halfDays, g.leaves, g.weekOffs, g.absentDays,
                      g.wrongShifts, g.missPunches, g.lateOccurrences, g.totalLateMinutes, fm);
  }

  /** The loop body for the k-th employee of the stage: its stage group is its reference group. */
  method SummarizeStaged(docs: seq<DailyDoc>, yearMonth: string, employees: map<string, Employee>,
                         groups: map<string, Group>, e: string, totalWorkingDays: int)
    returns (doc: SummaryDoc)
    requires groups == GroupStage(docs, yearMonth, |docs|).0 && e in groups
    requires totalWorkingDays == WorkingDays(yearMonth)
    ensures doc == ReferenceSummary(docs, yearMonth, employees, e)
  {
    GroupStageAt(docs, yearMonth, |docs|, e);
    doc := SummarizeGroup(e, groups[e], employees, yearMonth, totalWorkingDays);
  }

  /**
   * `generate_monthly_summary`: one summary per employee with a document of
   * the month, in the stage's order, each the employee's reference group with
   * the month's FM status, and each upserted into the summary store.
   */
  method GenerateMonthlySummary(docs: seq<DailyDoc>, yearMonth: string, employees: map<string, Employee>,
                                store: map<(string, string), SummaryDoc>)
    returns (outDocs: seq<SummaryDoc>, store': map<(string, string), SummaryDoc>)
    ensures |outDocs| == |GroupStage(docs, yearMonth, |docs|).1|
    ensures forall k :: 0 <= k < |outDocs| ==>
      outDocs[k] == ReferenceSummary(docs, yearMonth, employees, GroupStage(docs, yearMonth, |docs|).1[k])
    ensures store' == Upserted(store, outDocs)
  {
    var stage := GroupStage(docs, yearMonth, |docs|);
    var groups, order := stage.0, stage.1;
    GroupOrder(docs, yearMonth, |docs|);
    var totalWorkingDays := CalcTotalWorkingDays(yearMonth);
    outDocs := [];
    store' := store;
    var k := 0;
    while k < |order|
      invariant 0 <= k <= |order|
      invariant |outDocs| == k
      invariant forall i :: 0 <= i < k ==> outDocs[i] == ReferenceSummary(docs, yearMonth, employees, order[i])
      invariant store' == Upserted(store, outDocs)
    {
      var doc := SummarizeStaged(docs, yearMonth, employees, groups, order[k], totalWorkingDays);
      assert (outDocs + [doc])[..k] == outDocs;
      outDocs := outDocs + [doc];
      store' := store'[(doc.employeeId, doc.yearMonth) := doc];
      k := k + 1;
    }
  }

  /** The employees of the stage are distinct, so every summary lands under its own key. */
  lemma {:induction false} UpsertedKeys(store: map<(string, string), SummaryDoc>, out: seq<SummaryDoc>, k: nat)
    requires k < |out|
    requires forall i, j :: 0 <= i < j < |out| ==> out[i].employeeId != out[j].employeeId
    ensures (out[k].employeeId, out[k].yearMonth) in Upserted(store, out)
    ensures Upserted(store, out)[(out[k].employeeId, out[k].yearMonth)] == out[k]
    decreases |out|
  {
    var prefix := out[..|out| - 1];
    if k < |out| - 1 {
      assert prefix[k] == out[k];
      UpsertedKeys(store, prefix, k);
    }
  }

  /**
   * After `generate_monthly_summary`, the summary store holds, under
   * (employee, year-month), the reference summary of every employee with a
   * document of the month.
   */
  lemma GeneratedStore(docs: seq<DailyDoc>, yearMonth: string, employees: map<string, Employee>,
                       store: map<(string, string), SummaryDoc>, out: seq<SummaryDoc>, e: string)
    requires |out| == |GroupStage(docs, yearMonth, |docs|).1|
    requires forall k :: 0 <= k < |out| ==>
      out[k] == ReferenceSummary(docs, yearMonth, employees, GroupStage(docs, yearMonth, |docs|).1[k])
    requires HasDoc(docs, yearMonth, e, |docs|)
    ensures (e, yearMonth) in Upserted(store, out)
    ensures Upserted(store, out)[(e, yearMonth)] == ReferenceSummary(docs, yearMonth, employees, e)
  {
    var order := GroupStage(docs, yearMonth, |docs|).1;
    StageEmployees(docs, yearMonth, e);
    GroupOrder(docs, yearMonth, |docs|);
    var k :| 0 <= k < |order| && order[k] == e;
    forall i, j | 0 <= i < j < |out|
      ensures out[i].employeeId != out[j].employeeId
    {
      assert out[i].employeeId == order[i] && out[j].employeeId == order[j];
    }
    UpsertedKeys(store, out, k);
  }
}
