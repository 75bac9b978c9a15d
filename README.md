# MVA Payroll core in Dafny

This project models the batch core of the MVA payroll tool. The pipeline has these steps:

- An attendance sheet, already read as a grid of text cells, is cut into one block per employee (`parse_mva_blocks`).
- Each block's month is graded "FM+1", "FM" or "FM-n" (`calculate_fm_status`, `process_attendance_data`).
- The monthly deduction engine counts quarter-day cuts and late entries and writes the payroll summary (`compute_monthly_payroll`).
- The per-day metrics step computes work, overtime, late and early-exit minutes and the overnight, missed-punch and wrong-shift flags (`compute_attendance_metrics`).
- The staff-shift sheet importer parses shift cells into intervals and shift codes and upserts shifts and employees (`shift_importer`).
- The database helpers upsert employees, shifts, per-date assignments and daily documents (`mongo_helpers`).
- The monthly summary groups a month's daily documents per employee (`monthly_summary`).
- The header search finds the department and the report month of a sheet (`extract_info`).

There is one module per source file:

| module | source file |
|---|---|
| `MvaLabels`, `MvaBlocks`, `MvaSummary` | `mva.py` |
| `MonthlyPayroll` | `compute_monthly_payroll.py` |
| `AttendanceMetrics` | `compute_attendance_metrics.py` |
| `ShiftImporter` | `shift_importer.py` |
| `MongoHelpers` | `mongo_helpers.py` |
| `MonthlySummary` | `monthly_summary.py` |
| `ExtractInfo` | `extract_info.py` |

Four supporting modules give the Python library behaviour the core relies on:

- `Text`: `strip`, `lower`/`upper`, `in`, `startswith`, `split` and `join`.
- `Numerals`: `int()`, `float()`, `str()`, the `02d` format and the float `repr` of quarter values.
- `Calendar`: month lengths and weekdays.
- `Search`: the first and last index of a range satisfying a test, the element-wise map, and the values of the present results of a list of optional results.

`Wrappers` gives `Option`.

Numbers are integers wherever the source's arithmetic allows:

- times are minutes after midnight;
- deductions are counted in quarter-days;
- `process_attendance_data` counts present and absent days in half days.

The database is a value of type `Store`, one map per collection keyed as the upserts key it. In `MongoHelpers.Db` those maps are fields that the upsert methods update in place. Loops in the source are methods with loop invariants, each proved equal to a function. The properties are proved as lemmas about those functions.

## Model

| member | source | states |
|---|---|---|
| MvaLabels.CleanStrClean | mva.py:6-10 | Cleaning a cell is idempotent and leaves no whitespace at either end. |
| MvaLabels.AnyKeywordIff | mva.py:17-18 | A cell matches exactly when the lower-cased text of some keyword occurs in the lower-cased cell. |
| MvaLabels.WindowSpec | mva.py:20-24 | The look-ahead value is "" exactly when every cell of the window cleans to "". Otherwise it is the first non-empty cleaned cell of the window. |
| MvaLabels.LabelValueNoMatch | mva.py:14-25 | With no matching cell in the row, the lookup returns "". |
| MvaLabels.LabelValueAtFirstMatch | mva.py:16-24 | The first matching cell j alone decides the result: the look-ahead over cells j+1 .. min(j+1+lookahead, len) − 1. A later match is never tried. |
| MvaLabels.MatchesKeyword | mva.py:17-18 | The keyword loop returns exactly whether the cell matches. |
| MvaLabels.WindowValue | mva.py:20-24 | The look-ahead loop returns the window value. |
| MvaLabels.FindLabelValue | mva.py:12-25 | The nested loop with early returns computes the label lookup. |
| MvaBlocks.ParseDecimalClean | mva.py:27-33 | Stripping a cell does not change how `float()` reads it. |
| MvaBlocks.DayRowSearch | mva.py:87-92 | A day row found for header row i lies in rows i+1 .. i+14 of the grid. |
| MvaBlocks.DayRowSearchSpec | mva.py:86-96 | The found row is a day row and is the first such row after i. When none is found, no row in i+1 .. i+14 is a day row. |
| MvaBlocks.FindDayRow | mva.py:86-92 | The scanning loop with `break` returns the day row search's result. |
| MvaBlocks.BindIsLastMatch | mva.py:103-113 | Each label role is bound to the last row of the range whose first cell announces it, because later rows overwrite earlier ones. |
| MvaBlocks.BindLabelRows | mva.py:101-113 | The label-row loop computes that binding. |
| MvaBlocks.CellDay | mva.py:118-123 | A cell yields a day only in 1..31. |
| MvaBlocks.CellDayClean | mva.py:117-123 | A column's day is `int(float(v))` of its cell when that cell is an integer string in 1..31. Cleaning does not change the test. |
| MvaBlocks.DayColsOrdered | mva.py:116-125 | The day columns come in strictly increasing column order. Each carries the day read from its column, in 1..31. |
| MvaBlocks.DayColsOfDayRow | mva.py:87-92 | On a day row there is exactly one day column per integer cell. |
| MvaBlocks.DayColAt | mva.py:118-125 | One column step appends that column's day column entry, if any. |
| MvaBlocks.DayColumns | mva.py:116-125 | The column loop builds the day columns. |
| MvaBlocks.RecordDays | mva.py:127-148 | Daily record k carries the day of day column k. |
| MvaBlocks.BuildDailyRecords | mva.py:127-148 | The record loop builds one record per day column, reading absent rows and columns as "". |
| MvaBlocks.ScanLabelsSpec | mva.py:98-113 | A bound label row lies below the weekday row, within the 12 scanned rows, and announces its role, with no later row in the window announcing it. An unbound role is announced by no row there. |
| MvaBlocks.NextCursor | mva.py:166 | After a block the cursor resumes at least two rows past the day row. |
| MvaBlocks.HeaderNext | mva.py:94-96 | A header row always moves the cursor forward, including when no day row is found. |
| MvaBlocks.ScanSkip | mva.py:168 | A row without "empcode" emits nothing and moves on one row. |
| MvaBlocks.ScanHeader | mva.py:47-167 | A header row emits its block, if it has a day row, and the scan resumes at the new cursor. |
| MvaBlocks.ReadHeader | mva.py:50-62 | The header reads give empcode, name and department from the header row, and the month from the header row or the row below it. |
| MvaBlocks.ReadDays | mva.py:98-148 | The daily records and the next cursor of a block. |
| MvaBlocks.ReadBlock | mva.py:47-167 | The header-row branch emits that branch's blocks and moves the cursor there. |
| MvaBlocks.Advance | mva.py:43-168 | One loop iteration moves the cursor strictly forward, and its output followed by the rest of the scan is the scan from the old cursor. |
| MvaBlocks.ParseMvaBlocks | mva.py:36-170 | The cursor loop returns the scan of the whole grid. |
| MvaBlocks.MakeBlockWellFormed | mva.py:87-92 | A block built on a day row has at least 10 daily records with days in 1..31, and header < day row ≤ header + 14. |
| MvaBlocks.ScanWellFormed | mva.py:150-168 | Every emitted block is well formed, and consecutive blocks do not overlap. |
| MvaBlocks.HeadersIncrease | mva.py:161 | Blocks come out in strictly increasing header-row order. |
| MvaSummary.FmGrade | mva.py:204-239 | FM+1 holds exactly when there are no half days, leaves or absences and present ≥ 27 with 4 week-offs, or present = 31, or present = working days − week-offs. Absences over 1 are penalised before leaves over 1, with penalty = count − 1. Otherwise the grade is FM. |
| MvaSummary.GradeTextPrefix | mva.py:195-239 | Every grade text starts with "FM". It has "-" after "FM" exactly for a penalty. |
| MvaSummary.FmStatusTextSpec | mva.py:204-239 | The "FM+1"/"FM-n"/"FM" text of whole-day counts, case by case. |
| MvaSummary.LeavePenaltyReadsBack | mva.py:232-233 | The number after "FM-" reads back as the excess leaves. |
| MvaSummary.AbsentPenaltyReadsBackInt | mva.py:228-229 | With whole absences the number after "FM-" reads back as the excess absences. |
| MvaSummary.AbsentPenaltyReadsBackFloat | mva.py:228-229 | With half-day absences the float after "FM-" reads back as the excess absences. |
| MvaSummary.ClassifyStatusSpec | mva.py:290-302 | A status is present iff it has a P, half day iff H and no P, leave iff L and no P or H, week-off iff "WO" and none of those, and absent iff it is exactly "A". |
| MvaSummary.TotalOtNonNegative | mva.py:314-321 | An accepted TOTALOT figure is never negative. |
| MvaSummary.TallyBounds | mva.py:284-301 | Present plus absent halves plus leaves and week-offs never exceed the records. A half day counts half present and half absent. Half days are counted exactly when some record is one. |
| MvaSummary.LastSheetOtSpec | mva.py:313-321 | The sheet OT figure is absent exactly when no record has one. Otherwise it is the figure of the last record that has one. |
| MvaSummary.SheetOtIsLast | mva.py:313-321 | The tally keeps the last TOTALOT figure, because later figures overwrite earlier ones. |
| MvaSummary.CountRecord | mva.py:290-301 | The counter updates of one status, by first match. |
| MvaSummary.TallyRecords | mva.py:284-321 | The record loop computes the tally of all records. |
| MvaSummary.SummarizeBlockBounds | mva.py:241-354 | A row's day counts are bounded by its records, and its FM status starts with "FM". |
| MvaSummary.SummarizeOne | mva.py:245-354 | One block's output row: counts, OT (the sheet figure when positive, else the OT sum) and FM status. |
| MvaSummary.ProcessAttendanceData | mva.py:241-355 | One row per block, in order. |
| Numerals.ParseNatRoundTrip | mva.py:229 | `int(str(n)) == n` for the penalty numbers the grade prints. |
| Numerals.NatToStringInjective | mva.py:229 | Different penalties print differently. |
| Numerals.QuartersTextRoundTrip | compute_monthly_payroll.py:150 | The printed quarter-day total reads back as that many quarters. |
| Calendar.DaysInMonth | monthly_summary.py:13 | Month lengths are 28..31, with 29 exactly for February of a leap year. |
| Calendar.MonthWorkdays | monthly_summary.py:12-17 | Every month has between 20 and 23 Monday-to-Friday days. |
| MonthlyPayroll.ParseClock | compute_monthly_payroll.py:109-111 | A parsed "%H:%M" time is a minute of the day. |
| MonthlyPayroll.ClockRoundTrip | compute_monthly_payroll.py:109-111 | Every minute of the day, written "HH:MM", parses back to itself. |
| MonthlyPayroll.WorkedMinutes | compute_monthly_payroll.py:113-117 | Worked time is in 0 .. 1439 and lands on the out time, taking the next day when out < in. |
| MonthlyPayroll.ShiftChoiceSpec | compute_monthly_payroll.py:68-83 | An assignment record wins over the default shift. The shift type is "N/A" exactly without a code. Shift in/out come only from the first interval of a known shift. |
| MonthlyPayroll.CodesCountOnce | compute_monthly_payroll.py:89-93 | The five exact-code buckets are disjoint: their counts sum to at most the number of statuses. |
| MonthlyPayroll.BucketsBounded | compute_monthly_payroll.py:87-94 | The bucket counts sum to at most total_working_days, which is at most the number of records. |
| MonthlyPayroll.DayEffectSpec | compute_monthly_payroll.py:100-137 | A day has an effect only with both times parsed and a present code. On a split shift under 9 h the effect is one quarter cut, and lateness is not examined. Otherwise the effect is the lateness effect against the shift start. |
| MonthlyPayroll.LateThresholds | compute_monthly_payroll.py:127-133 | More than 30 min late is a quarter cut, 6..30 min is a late entry, and otherwise nothing. |
| MonthlyPayroll.TallyBounded | compute_monthly_payroll.py:97-137 | Cuts plus late entries never exceed the days. |
| MonthlyPayroll.NoEffectsCutNothing | compute_monthly_payroll.py:97-98 | Days without effects give no cuts and no late entries. |
| MonthlyPayroll.AbsentMonthCutsNothing | compute_monthly_payroll.py:105-106 | A month with no present code has no deductions. |
| MonthlyPayroll.QuarterCutsBounded | compute_monthly_payroll.py:97-140 | The quarter cuts and the late entries are each at most the number of days. |
| MonthlyPayroll.ExamineDay | compute_monthly_payroll.py:100-137 | One day's loop body computes its effect. |
| MonthlyPayroll.CountDeductions | compute_monthly_payroll.py:97-140 | The day loop counts the late entries, and the quarter cuts including one per complete group of 3 late entries. |
| MonthlyPayroll.GradeWithCutsSpec | compute_monthly_payroll.py:148-150 | The grade is unchanged exactly when there are no cuts. Otherwise it gets " -" and a number that reads back as cuts / 4. |
| MonthlyPayroll.ComputeBlock | compute_monthly_payroll.py:86-171 | The payroll document of one block. |
| MonthlyPayroll.PayrollDocGrade | compute_monthly_payroll.py:142-165 | The full-month status extends the FM grade and equals it iff there are no cuts. The buckets are bounded. Cuts are at most the days. |
| MonthlyPayroll.BlockWriteSpec | compute_monthly_payroll.py:58-65 | A block is written iff its stripped empcode is non-empty. The profile carries the chosen shift and its times. |
| MonthlyPayroll.ApplyWritesKeys | compute_monthly_payroll.py:173-177 | Payroll keys after the run are the old ones plus every written (employee, month). |
| MonthlyPayroll.ApplyWritesLast | compute_monthly_payroll.py:173-177 | The last write to a key wins. |
| MonthlyPayroll.ApplyWritesUntouched | compute_monthly_payroll.py:173-177 | Unwritten keys keep their documents. |
| MonthlyPayroll.ApplyWritesProfile | compute_monthly_payroll.py:179-191 | The employee profile is the last one written. |
| MonthlyPayroll.ApplyWritesCount | compute_monthly_payroll.py:193 | `computed` grows by one per write. |
| MonthlyPayroll.WrittenAreCounted | compute_monthly_payroll.py:64-65 | The written blocks are exactly those with a non-empty code. |
| MonthlyPayroll.PayrollComputed | compute_monthly_payroll.py:193-199 | processed counts exactly the blocks with a non-empty code. |
| MonthlyPayroll.PayrollLastWins | compute_monthly_payroll.py:173-177 | The stored payroll of (employee, month) is that of the last block with that key. |
| MonthlyPayroll.ProfileLastWins | compute_monthly_payroll.py:179-191 | The stored profile is that of the employee's last block. |
| MonthlyPayroll.ComputeMonthlyPayroll | compute_monthly_payroll.py:56-199 | The block loop computes the run: payroll store, profiles and count. |
| AttendanceMetrics.ReadDigitsColonDigits | compute_attendance_metrics.py:13-15 | "h:m" reads as h*60+m, with no range check. |
| AttendanceMetrics.HhmmReadsDigits | compute_attendance_metrics.py:6-17 | `hhmm_to_minutes` of digits:digits is h*60+m. |
| AttendanceMetrics.HhmmReadsLastPiece | compute_attendance_metrics.py:11-12 | With a date in front, only the last space-separated piece is read. |
| AttendanceMetrics.TimestampClock | compute_attendance_metrics.py:10-12 | The clock piece of "date clock" is the clock. |
| AttendanceMetrics.NormalizePunchesIdempotent | compute_attendance_metrics.py:22-31 | Normalizing normalized punches changes nothing. |
| AttendanceMetrics.FetchAssignedShiftSpec | compute_attendance_metrics.py:33-43 | A per-date assignment wins outright, with no fallback when its code has no shift. Otherwise a non-empty default shift is used, and otherwise None. |
| AttendanceMetrics.ExpectedOfSpec | compute_attendance_metrics.py:66-84 | Expected times and the shift code come only from a shift with intervals, from its first interval. Without a shift, grace and break are 0. |
| AttendanceMetrics.MissPunchSpec | compute_attendance_metrics.py:95-96 | miss_punch holds iff a punch fails to parse. Then all minutes are 0 and the day is not overnight. |
| AttendanceMetrics.OvernightSpec | compute_attendance_metrics.py:99-107 | overnight holds iff both punches parse and out < in. Work is max(0, out (+1440) − in − break). |
| AttendanceMetrics.OvertimeEarlyExitSpec | compute_attendance_metrics.py:109-128 | OT and early exit are non-negative, and at most one is positive. Their difference is out − expected end, the end adjusted by +1440 for an overnight shift. |
| AttendanceMetrics.LateSpec | compute_attendance_metrics.py:118-120 | Late is positive iff in > expected in + grace, and then equals the difference. |
| AttendanceMetrics.WrongShiftSpec | compute_attendance_metrics.py:130-132 | wrong_shift holds iff both the expected and the actual in exist and differ by more than 360 min. |
| AttendanceMetrics.ComputeDay | compute_attendance_metrics.py:57-132 | One document's loop body computes its metrics. |
| AttendanceMetrics.MeasureDay | compute_attendance_metrics.py:86-132 | The metric statements compute the day metrics. |
| AttendanceMetrics.DocMetricsDepends | compute_attendance_metrics.py:57-69 | The metrics depend only on the document's key and raw punches and on the employee, shift and assignment collections. |
| AttendanceMetrics.UpdatedDocsStep | compute_attendance_metrics.py:145 | Updating one more document changes that document alone. |
| AttendanceMetrics.MonthMetricsSpec | compute_attendance_metrics.py:52-145 | Documents of the month get their metrics written. Every other field and every other document is unchanged. |
| AttendanceMetrics.MonthMetricsIdempotent | compute_attendance_metrics.py:45-146 | Running the month twice gives the same collection as once. |
| AttendanceMetrics.RefreshDoc | compute_attendance_metrics.py:145 | One update_one writes one document's metrics in place. |
| AttendanceMetrics.ComputeForMonth | compute_attendance_metrics.py:45-146 | The cursor loop writes the month's metrics, and `processed` is the number of documents of the month. |
| ShiftImporter.ClockAtSpec | shift_importer.py:44 | A clock match is `\d{1,2}:\d{2}`: a non-zero length ends inside the text and covers a clock. |
| ShiftImporter.SkipSpacesSpec | shift_importer.py:44 | `\s*` consumes only spaces and stops at the first non-space or at the end. |
| ShiftImporter.SearchMatch | shift_importer.py:44 | A found position holds a match. |
| ShiftImporter.SearchSpec | shift_importer.py:44 | `re.search` finds the leftmost match, and finds none only when no position matches. |
| ShiftImporter.MatchShape | shift_importer.py:44-47 | Both groups of a match are clocks, and the first starts at the match. |
| ShiftImporter.MatchSeparated | shift_importer.py:44 | Two clocks around "to" in any letter case, a hyphen or an en dash, with any whitespace on either side, match at the start with the two clocks as the groups. |
| ShiftImporter.MatchClocks | shift_importer.py:44 | "a-b" of two clocks matches with groups a and b. |
| ShiftImporter.PartIntervalShape | shift_importer.py:42-48 | A part yields at most one interval of two clocks. |
| ShiftImporter.CollectShape | shift_importer.py:40-48 | Collected intervals are all clocks. |
| ShiftImporter.CellIntervalsSpec | shift_importer.py:39-49 | A cell yields at most one interval per part, each made of clocks. |
| ShiftImporter.CellIntervalsParts | shift_importer.py:36-49 | An off-cell gives []. Any other cell gives the intervals of its ';'/','/'/' parts, in part order, and drops a part without a match. An interval occurs exactly when some part gives it. |
| ShiftImporter.ClockPairChars | shift_importer.py:36-39 | "a-b" of two clocks has no separator and no space, and is not an off word. |
| ShiftImporter.CellIntervalsClocks | shift_importer.py:27-49 | The cell "a-b" of two clocks parses to exactly [a, b]. |
| ShiftImporter.PartIntervalSeparated | shift_importer.py:42-48 | The stripped part "a to b", "a-b" or "a – b" (any spaces, any case of "to") gives the interval a, b. |
| ShiftImporter.PartIntervalClocks | shift_importer.py:42-48 | The part "a-b" of two clocks gives the interval a, b. |
| ShiftImporter.SeparatedPart | shift_importer.py:39-48 | Such a part holds no ';', ',' or '/', has no outer whitespace, and gives its interval. |
| ShiftImporter.JoinedPairsIntervals | shift_importer.py:27-49 | A ';'-joined list of "start-end" clock pairs parses back to exactly those intervals, in order. |
| ShiftImporter.CellIntervalsTwoParts | shift_importer.py:27-49 | A cell of two parts in any of the documented styles, such as "09:00 to 18:00;15:00-19:00", gives both intervals in part order. |
| ShiftImporter.PartResult | shift_importer.py:42-48 | One part's loop body computes the part's interval. |
| ShiftImporter.ParseShiftCell | shift_importer.py:27-49 | Returns the intervals of the cell, and [] for None, empty or off cells. |
| ShiftImporter.ScanParts | shift_importer.py:40-49 | The loop over the parts keeps, in order, the interval of every part that matches and skips the rest. |
| ShiftImporter.SanitizeSpec | shift_importer.py:66 | The sanitized code has only [A-Za-z0-9_-]. A character is kept iff it is legal. |
| ShiftImporter.Sanitize | shift_importer.py:66 | Sanitizing keeps the length. |
| ShiftImporter.ShiftCodeSpec | shift_importer.py:51-67 | The code is "OFF" exactly for no intervals, and always has only legal characters. |
| ShiftImporter.MakeShiftCode | shift_importer.py:51-67 | The loop builds the code. |
| ShiftImporter.SanitizeKeeps | shift_importer.py:66 | Legal text passes unchanged, and sanitizing is idempotent. |
| ShiftImporter.ShiftCodeClocks | shift_importer.py:57-66 | For clock intervals the sanitizer changes nothing: the code is "SH_" followed by the pieces joined by "__". |
| ShiftImporter.ShiftCodeOne | shift_importer.py:54 | One interval gives "SH_" + start + "-" + end with ':' replaced by '_'. |
| ShiftImporter.ClassifyEmployee | shift_importer.py:95-104 | A row is an employee row iff its stripped first cell is non-empty digits. It carries that code and the shift parsed from column 2. |
| ShiftImporter.ClassifyDept | shift_importer.py:82-89 | A "dept" row sets the department from column 1, or clears it. |
| ShiftImporter.ClassifyHeader | shift_importer.py:91-93 | An "empcode"/"employee" row is a header row and changes nothing. |
| ShiftImporter.BulkAssignOk | mongo_helpers.py:70 | The month assignment fails exactly on an unreadable month. |
| ShiftImporter.FailedStays | shift_importer.py:127-131 | After a failed month assignment the run is over. |
| ShiftImporter.NeverFails | shift_importer.py:127-131 | Without a month, or with a readable one, the run never fails. |
| ShiftImporter.ImportCounts | shift_importer.py:124-131 | employees counts the employee rows. assigned_month counts them again when a month is given. |
| ShiftImporter.EmployeeStepShifts | shift_importer.py:107-119 | A code is written to the shift master only the first time it is met, OFF included, and counted then. |
| ShiftImporter.LaterStepsKeepShifts | shift_importer.py:121-131 | The employee upsert and the month assignment leave the shifts alone. |
| ShiftImporter.RowStepShifts | shift_importer.py:79-131 | Each row keeps shifts_created equal to the number of created codes, all in the shift master. |
| ShiftImporter.ImportCreated | shift_importer.py:107-119 | The created codes are exactly the codes of the employee rows. |
| ShiftImporter.ImportTracked | shift_importer.py:107-119 | The count of created shifts stays exact over the run. |
| ShiftImporter.EmployeeStepRecord | shift_importer.py:121-123 | The employee is upserted with the current department and default shift, which is None exactly for OFF. |
| ShiftImporter.EmployeeStepFailed | shift_importer.py:127-129 | An employee row fails exactly when the given month is unreadable. |
| ShiftImporter.ImportSheetCompletes | shift_importer.py:79-131 | A sheet run with no month, or a readable one, completes. |
| ShiftImporter.ImportSheetCounts | shift_importer.py:77-138 | The returned stats count the employee rows and the distinct codes, and every code is in the shift master. |
| ShiftImporter.ClassifyRow | shift_importer.py:80-104 | The classifier statements classify the row. |
| ShiftImporter.ImportShift | shift_importer.py:107-119 | The first use of a code upserts its shift and counts it. A repeat use changes nothing. |
| ShiftImporter.ImportEmployee | shift_importer.py:97-131 | The employee-row branch performs the employee step on the database. |
| ShiftImporter.KindAt | shift_importer.py:80-104 | Row i is classified. |
| ShiftImporter.ImportRow | shift_importer.py:80-131 | One loop iteration performs the row step on the database. |
| ShiftImporter.Importer | shift_importer.py:69-138 | The row loop leaves the database and the stats of the sheet run. It stops where bulk assignment raises. |
| MongoHelpers.WithEmployeeSpec | mongo_helpers.py:15-28 | An empty id changes nothing. Otherwise only the record under the id is replaced, as an active employee. |
| MongoHelpers.WithShiftSpec | mongo_helpers.py:31-46 | Only the record under the code is replaced, by the whole document: code, intervals, weekly_off (default []), grace, break and description. |
| MongoHelpers.WithAssignmentSpec | mongo_helpers.py:49-62 | Only the assignment under (employee, date) is replaced, so re-assigning never duplicates. |
| MongoHelpers.DateStringInjective | mongo_helpers.py:73 | Distinct days give distinct date strings. |
| MongoHelpers.AssignDaysAt | mongo_helpers.py:72-82 | After the month's assignment a key is present iff it was before or is one of the month's dates. The month's dates hold the code and other keys keep their values. |
| MongoHelpers.AssignDaysDay | mongo_helpers.py:72-80 | Every day 1..n of the month gets the code. |
| MongoHelpers.MonthIndex | mongo_helpers.py:116-120 | A month number is 1..12. |
| MongoHelpers.MonthNumberSpec | mongo_helpers.py:116-120 | A known abbreviation maps to its position, and an unknown one to "01". The result is always two digits in 01..12. |
| MongoHelpers.ChosenYearMonthSpec | mongo_helpers.py:111-121 | An explicit year-month wins. A readable label gives "...-MM" with MM in 01..12. |
| MongoHelpers.IngesterSpec | mongo_helpers.py:129-174 | A record is skipped iff its day is 0. It fails iff an explicit year-month is given that does not split at exactly one "-" into a year and an integer month; with no month at all the date is built from the current year and month. Otherwise it becomes a fresh document of the employee dated "{ym}-{dd}". |
| MongoHelpers.BlockDocsCount | mongo_helpers.py:129-132 | A block yields one document per record with a day. |
| MongoHelpers.BlockDocsSpec | mongo_helpers.py:152-174 | Every document of a block is fresh and carries the block's employee. |
| MongoHelpers.BlockDocsFail | mongo_helpers.py:133-135 | One failing record fails the block. |
| MongoHelpers.BlockResultsSpec | mongo_helpers.py:129-174 | The per-record results of a block, as for one record. |
| MongoHelpers.ApplyOpsAt | mongo_helpers.py:174-176 | After the bulk write a key holds the last document written under it, or its old document. |
| MongoHelpers.ApplyOpsSpec | mongo_helpers.py:174-176 | The same, stated over positions: the last writer wins and untouched keys stay. |
| MongoHelpers.IngestPrefixSpec | mongo_helpers.py:105-174 | Ingestion leaves the shifts, assignments and daily collection alone until the bulk write, and every queued document is fresh. |
| MongoHelpers.IngestStopped | mongo_helpers.py:133-138 | Once a record fails, the remaining blocks change nothing. |
| MongoHelpers.Db.constructor | mongo_helpers.py:10-12 | A database holding the given collections. |
| MongoHelpers.Db.UpsertEmployee | mongo_helpers.py:15-28 | Updates the employees in place as `WithEmployee` says. |
| MongoHelpers.Db.UpsertShiftMaster | mongo_helpers.py:31-46 | Updates the shift master in place and returns the stored record. |
| MongoHelpers.Db.AssignShiftToEmployeeOnDate | mongo_helpers.py:49-62 | Updates the assignment in place. |
| MongoHelpers.Db.BulkAssignShiftForMonth | mongo_helpers.py:64-84 | Assigns every day of the month, or fails and changes nothing on an unreadable month. |
| MongoHelpers.Db.IngestOne | mongo_helpers.py:106-174 | One block: the employee upsert and the queued daily documents. |
| MongoHelpers.Db.WriteDaily | mongo_helpers.py:175-176 | The bulk write applies the queued upserts in order. |
| MongoHelpers.Db.IngestBlocksToDb | mongo_helpers.py:99-178 | The block loop and the bulk write leave the database as the ingestion function says. |
| MonthlySummary.WorkingDaysSpec | monthly_summary.py:7-19 | A readable month has 20..23 working days, at most its length. The result is 26 exactly when the month cannot be read. |
| MonthlySummary.CalcTotalWorkingDays | monthly_summary.py:7-19 | The day loop counts the Monday-to-Friday days. |
| MonthlySummary.GroupBounds | monthly_summary.py:26-40 | The five status counts together, late occurrences, wrong shifts and missed punches are each at most count_days, which is at most the documents. |
| MonthlySummary.GroupStageAt | monthly_summary.py:25-40 | The stage has a group for exactly the employees with a document in the month, and that group is the reference fold. |
| MonthlySummary.GroupOrder | monthly_summary.py:26-27 | The stage lists each grouped employee exactly once. |
| MonthlySummary.StageEmployees | monthly_summary.py:25-27 | An employee is listed iff they have a document in the month. |
| MonthlySummary.SummarizeGroup | monthly_summary.py:69-96 | The loop body builds the summary document with its FM status. |
| MonthlySummary.SummarizeStaged | monthly_summary.py:66-96 | A staged group summarizes as the reference summary. |
| MonthlySummary.GenerateMonthlySummary | monthly_summary.py:21-101 | One reference summary per grouped employee, upserted by (employee, year-month). |
| MonthlySummary.UpsertedKeys | monthly_summary.py:98-100 | Each summary is stored under its key. |
| MonthlySummary.GeneratedStore | monthly_summary.py:66-100 | After the run every employee with a document in the month has their reference summary stored. |
| ExtractInfo.Scanned | extract_info.py:11 | At most 10 rows are primary candidates. |
| ExtractInfo.Candidates | extract_info.py:11 | One candidate per primary row. |
| ExtractInfo.CandidateSpec | extract_info.py:15-33 | A row with neither value yields nothing. A value found on row i is kept, only the missing one is taken from row i+1, and a yielded pair has both values non-empty. |
| ExtractInfo.CandidateNextRowUnused | extract_info.py:19-25 | Row i+1 is consulted only when row i has exactly one of the values. |
| ExtractInfo.ExtractFound | extract_info.py:11-33 | A found pair is that of the first row that yields one, and both its values are non-empty. |
| ExtractInfo.ExtractNotFound | extract_info.py:35-36 | The error result is returned exactly when no primary row yields a pair. |
| ExtractInfo.ExtractFirstRows | extract_info.py:11-33 | Rows below the eleventh never matter. |
| ExtractInfo.ExtractFromPrefix | extract_info.py:11-33 | The label values of the first eleven rows decide the result. |
| ExtractInfo.CandidatesPrefix | extract_info.py:11-33 | Agreeing first eleven rows give the same candidates. |
| ExtractInfo.DeptAt | extract_info.py:15 | The department lookup. |
| ExtractInfo.MonthAt | extract_info.py:16 | The month lookup. |
| ExtractInfo.CompleteFrom | extract_info.py:25-33 | Only the missing value is looked up on the next row. |
| ExtractInfo.RowCandidate | extract_info.py:12-33 | One loop iteration's result. |
| ExtractInfo.ExtractDeptAndMonth | extract_info.py:4-36 | The row loop with its early returns computes the extractor's result. |

## Left out

- Reading files (`pd.read_excel`), the database connection (`get_db`), printing, and `datetime.utcnow` time stamps, document ids and `source_file_id` are not modelled. Sheets are given as grids of text cells, because the sheet reader applies `fillna("").astype(str)`. Collections are given as maps.
- Numerals: only plain decimal notation is read (an optional sign, digits, an optional point and fraction). Python's `int()`/`float()` also accept exponents, `inf`/`nan` and underscores, and those are not modelled.
- Numerals: a digit is an ASCII digit, and case mapping and whitespace are ASCII/`str.isspace()` character sets. The regex `\d` and Unicode case folding of non-ASCII text are not modelled.
- Floating point is not modelled. This covers the summary-row figures of `safe_float_str` (mva.py:73-83), `calculate_work_hours` (mva.py:172-193), the hour figures and `round` of the metrics (compute_attendance_metrics.py:19-20, 134-136), the `work_time` parse of the ingester (mongo_helpers.py:147-150), and the hour sums of the monthly summary (monthly_summary.py:36-38, 75, 92). Minutes, quarter-days and half days are kept as integers instead. OT figures are exact rationals and are not rounded.
- MvaSummary.ProcessAttendanceData: takes each block's working-day count as a parameter. The source derives it with `pd.Timestamp` date parsing, and leaves it unbound when the month text lacks '-' (mva.py:252-271).
- AttendanceMetrics.ComputeForMonth: the `^year_month` regex filter is modelled as a literal prefix test, so a year-month containing regex metacharacters is not modelled. Cursor order does not matter because each document is updated independently.
- MongoHelpers.Db.IngestBlocksToDb: the current-month fallback (mongo_helpers.py:136-138) takes the current date as a parameter. `bulk_write(ordered=False)` is modelled as applying the upserts in list order.
- MonthlySummary.GenerateMonthlySummary: the `^year_month` regex filter of the `$match` stage is modelled as a literal prefix test (`InMonth`), so a year-month containing regex metacharacters is not modelled; with "2025.07" the database would also match a date "2025-07-01", the model does not.
- MonthlySummary.GenerateMonthlySummary: the `$group` stage's output order is not specified by the database. The model lists employees in order of first appearance, and the summaries do not depend on it.
- MonthlyPayroll.ComputeMonthlyPayroll: the collections it reads (assignments by employee only, default shifts, shift master) are given as parameter maps. The `SYNC_EMPLOYEES` deletion (compute_monthly_payroll.py:47-54) is switched off in the source and is not modelled.
- MonthlyPayroll.CountDeductions: cuts are counted as whole quarter-days. The source's float total and its `round(…, 2)` are exact for these values.
- ShiftImporter.Importer: the exception `bulk_assign_shift_for_month` raises on an unreadable month is modelled as a failed run that stops at that row. The `print` summary is not modelled.
- ExtractInfo.ExtractDeptAndMonth: the outer `try`/`except` around reading the file, and its error text, are not modelled. Both error results are `NotFound`.
