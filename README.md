# SRM marks predictor and GPA calculator — a verified model

This project models the arithmetic core of a student tool for SRM's 60 + 40
grading scheme. It has four parts:

- **Grade predictor** (`grade_predictor.dfy`):
  - the band table of totals out of 100 (O, A+, A, B+, B, C, Pass);
  - the conversion of an exam mark out of 75 into a contribution out of 40;
  - the first-match grade scan, and the inverse that solves for the exam mark a band needs;
  - the prediction table: Impossible, Guaranteed or "at least m marks" per band, the Pass row dropped and a Fail row appended;
  - the direct prediction for a given exam mark.
- **Subject card** (`subject_card.dfy`): the loop that turns the same table into one contiguous range of whole exam marks per band. It carries the least mark of the band above from one iteration to the next.
- **GPA calculator** (`gpa_calculator.dfy`):
  - the grade-point table and the rounding of an average point back to a grade;
  - credit-weighted SGPA and CGPA;
  - the SGPA a dream CGPA requires;
  - the average grade point the unlocked courses need for a target SGPA;
  - the thresholds of the two target messages;
  - the calculator's session: three record lists with add, delete by id, update, clear and calculate. It is modelled as a class whose invariant says that every cached SGPA, CGPA and target result is the value of the current list.
- **Dashboard** (`dashboard.dfy`):
  - the grade histogram, with RA counted as Fail;
  - overall CGPA and first-versus-last trend;
  - the most common grade, where ties go to the earlier bucket;
  - the bar and line chart series.

The two grade tables are kept apart, as in the source. The predictor's
`BandGrade` has Pass and no RA. The calculator's `Grade` has RA and Fail and no
Pass. Marks and GPAs are `real`, exam marks in ranges are `int`, and
`Math.ceil` is `Util.Ceil`. A blank or non-numeric input field is `None`.

The core proofs:
- Every whole exam mark inside a subject card's range gives exactly that band's grade.
- The seven computed ranges neither overlap nor leave a gap above a total of 50. The card then drops the Pass row, so the marks that give Pass (a total in [50, 51)) appear in no shown row.
- The rounded-up mark is the least mark that reaches a band.
- The two GPA solvers round-trip: re-aggregating with the solved value gives back the target.
- Each loop computes the specification function it is proved against.

## Model

| member | source | states |
|---|---|---|
| GradePredictor.BandsWellFormed | src/GradePredictor.jsx:4-12 | the top band ends at 100, the last (Pass) starts at 50, each band's max is one below the previous band's min, min ≤ max, and only index 6 is Pass |
| GradePredictor.BandsDescending | src/GradePredictor.jsx:4-12 | band minimums strictly decrease down the table |
| GradePredictor.ConvertExternalTo40 | src/GradePredictor.jsx:19-22 | 0 maps to 0, 75 maps to 40, and [0, 75] maps into [0, 40] |
| GradePredictor.ConvertStrictlyIncreasing | src/GradePredictor.jsx:19-22 | a higher exam mark always contributes strictly more |
| GradePredictor.GetGrade | src/GradePredictor.jsx:29-36 | the early-return loop returns the first band whose minimum the total reaches, else Fail |
| GradePredictor.GradeForTotalIsBand | src/GradePredictor.jsx:29-36 | a total at least band k's minimum and below band k−1's minimum gets band k's grade |
| GradePredictor.GradeForTotalFails | src/GradePredictor.jsx:29-36 | the grade is Fail exactly when the total is below 50 |
| GradePredictor.BandOfTotal | src/GradePredictor.jsx:4-12 | every total of at least 50 falls in a band's [min, previous band's min), and no other band's |
| GradePredictor.GradeForIntegerTotal | src/GradePredictor.jsx:29-36 | every whole total from 50 to 100 gets the grade of the band whose printed [min, max] holds it |
| GradePredictor.GradeForTotalMonotone | src/GradePredictor.jsx:29-36 | a higher total never gives a lower grade |
| GradePredictor.ExternalNeeded | src/GradePredictor.jsx:44-53 | the result is never negative; it is 0 when the internal mark already reaches the target; otherwise it is positive and converting it lands exactly on the target |
| GradePredictor.MarksNeededIsLeast | src/GradePredictor.jsx:117 | the rounded-up need is non-negative, and a whole mark m reaches the target exactly when m ≥ it, so one mark fewer falls short |
| GradePredictor.MarksNeededMonotone | src/GradePredictor.jsx:44-53 | a higher target never needs fewer marks |
| GradePredictor.GuaranteedGradeAsWrittenOverclaims | src/GradePredictor.jsx:113-115 | with 55 internal marks the B row reads "Guaranteed O", yet an exam mark of 0 gives B |
| GradePredictor.GuaranteedGradeAsWritten | src/GradePredictor.jsx:113-115 | the grade a "Guaranteed" row names: getGrade of internal + 40, the best total reachable |
| GradePredictor.GuaranteedGrade | src/GradePredictor.jsx:29-36 | the grade an exam mark of 0 gives, which GuaranteedGradeIsCertain shows is the grade that is certain |
| GradePredictor.GuaranteedGradeIsCertain | src/GradePredictor.jsx:113-115 | every exam mark in [0, 75] gives at least the corrected guaranteed grade, and a mark of 0 gives exactly it |
| GradePredictor.NeededRow | src/GradePredictor.jsx:104-120 | one band's row: Impossible when internal + 40 misses the band, else Guaranteed with getGrade(internal + 40) when no exam mark is needed, else at least the rounded-up need; its meaning is proved by the NeededRow lemmas below |
| GradePredictor.FailRow | src/GradePredictor.jsx:123-132 | the appended Fail row, 0–49, with the rounded-up exam mark needed for 50 |
| GradePredictor.PredictionTable | src/GradePredictor.jsx:104-132 | the band rows in table order, Pass filtered out, then the Fail row; its shape is PredictionTableShape |
| GradePredictor.Direct | src/GradePredictor.jsx:136-150 | the direct prediction, present only for an exam mark in [0, 75]: converted mark, total and getGrade of the total |
| GradePredictor.PredictionTableShape | src/GradePredictor.jsx:104-132 | the table has the six non-Pass bands in table order followed by the single Fail row (0–49) |
| GradePredictor.NeededRowImpossibleIff | src/GradePredictor.jsx:109-112 | a band's row is Impossible exactly when internal + 40 is below its minimum |
| GradePredictor.NeededRowGuaranteedIff | src/GradePredictor.jsx:113-115 | a row is Guaranteed exactly when the internal mark alone reaches the band; the grade it names is getGrade(internal + 40), which ranks at least the band's grade and at least the grade that is certain |
| GradePredictor.NeededRowAtLeast | src/GradePredictor.jsx:116-117 | an "at least m" row has 1 ≤ m ≤ 75, m marks reach the band and m − 1 do not |
| GradePredictor.CalculatePredictions | src/GradePredictor.jsx:94-157 | the outcome is invalid exactly when the internal mark is missing or outside [0, 60]; otherwise it holds the prediction table and a direct prediction only for an exam mark in [0, 75], graded by getGrade of internal + converted mark |
| GradePredictor.ExampleFiftyFiveInternal | src/GradePredictor.jsx:44-53 | 55 internal marks need 67.5, so 68 whole marks, for an O |
| Util.Ceil | src/GradePredictor.jsx:117 | Math.ceil: the least integer not below its argument |
| SubjectCard.TargetGrades | src/SubjectCard.jsx:38-75 | the loop with the carried minMarkForGradeAbove builds exactly the card table: one row per band in order, the Fail row, Pass removed |
| SubjectCard.BandTarget | src/SubjectCard.jsx:43-67 | band i's card entry: Impossible above 75, Guaranteed with getGrade(internal + 40) when the least mark exceeds the carried bound, else the range from the least mark to the bound, with the O row always running to 75 |
| SubjectCard.FailTarget | src/SubjectCard.jsx:69-73 | the Fail row: impossible to fail when no mark is needed for 50, else fail at one mark below that need or less |
| SubjectCard.CardTable | src/SubjectCard.jsx:41-74 | the band entries in table order and the Fail row, Pass filtered out |
| SubjectCard.MinNeededNonNegative | src/SubjectCard.jsx:45-52 | the rounded-up need is never negative, so the `< 0` branch is dead |
| SubjectCard.MinNeededNonIncreasing | src/SubjectCard.jsx:43-45 | going down the table the least needed mark never grows |
| SubjectCard.MinNeededStrictWhilePositive | src/SubjectCard.jsx:43-45 | while a band still needs marks, the band above needs strictly more |
| SubjectCard.BandTargetUnreachableIff | src/SubjectCard.jsx:48-49 | a band is Impossible exactly when its least needed mark exceeds 75 |
| SubjectCard.BandTargetRangeBounds | src/SubjectCard.jsx:54-60 | a range runs from the least needed mark to one below the band above's start, or to 75 when that start exceeds 75, with 0 ≤ lo ≤ hi ≤ 75 |
| SubjectCard.TopRowRunsToFullMarks | src/SubjectCard.jsx:63-65 | the O row, when reachable, runs from its least needed mark to 75 |
| SubjectCard.MarkRangeGivesGrade | src/SubjectCard.jsx:43-67 | every whole exam mark inside a band's range gives exactly that band's grade |
| SubjectCard.MarkRangesDisjoint | src/SubjectCard.jsx:54-67 | no mark lies in the ranges of two different bands |
| SubjectCard.MarkRangesCoverPassingMarks | src/SubjectCard.jsx:41-67 | every mark in [0, 75] whose total is at least 50 lies in the range of the band it earns |
| SubjectCard.AssuredRowIsReached | src/SubjectCard.jsx:56-58 | a "Guaranteed" row is one the internal mark alone reaches; it names getGrade(internal + 40), which ranks at least the band's grade and at least the grade that is certain |
| SubjectCard.AssuredRowOverclaims | src/SubjectCard.jsx:56-58 | with 55 internal marks the C row reads "Guaranteed O", yet an exam mark of 0 gives B |
| SubjectCard.FailTargetMeaning | src/SubjectCard.jsx:69-73 | "Impossible to Fail" exactly when no mark is needed for 50; otherwise the bound k fails and k + 1 does not |
| SubjectCard.CardTableShape | src/SubjectCard.jsx:74 | the card shows the six non-Pass band rows in order, then Fail |
| SubjectCard.DropPassRow | src/SubjectCard.jsx:74 | filtering out Pass from the seven band rows and the Fail row keeps the other rows in order |
| SubjectCard.PassMarksUnlisted | src/SubjectCard.jsx:74 | with 30 internal marks an exam mark of 38 gives Pass, but C starts at 40 and the Fail row stops at 37, so 38–39 are in no shown row |
| GpaCalculator.GradePoints | src/GpaCalculator.jsx:8-10 | no grade is worth more than 10 points |
| GpaCalculator.GradeFromPoints | src/GpaCalculator.jsx:12-20 | the grade an average rounds to is never RA |
| GpaCalculator.GradeFromPointsMonotone | src/GpaCalculator.jsx:12-20 | a higher average never maps to a grade worth fewer points |
| GpaCalculator.GradeFromPointsNearest | src/GpaCalculator.jsx:12-20 | from 5.0 to 10.5 the grade is the one whose point value is nearest, halves rounding up; below 5.0 exactly, it is Fail |
| GpaCalculator.GradeFromPointsRoundTrip | src/GpaCalculator.jsx:8-20 | mapping a grade's own point value back gives the grade, with RA read as Fail |
| GpaCalculator.Sgpa | src/GpaCalculator.jsx:51-62 | the sum of grade points × credits over the sum of credits; bounded by SgpaBounded, order-free by SgpaPermutation |
| GpaCalculator.SgpaBounded | src/GpaCalculator.jsx:51-62 | the SGPA of a non-empty valid course list lies in [0, 10] |
| GpaCalculator.SgpaPermutation | src/GpaCalculator.jsx:51-62 | the SGPA does not depend on the order of the courses |
| GpaCalculator.Cgpa | src/GpaCalculator.jsx:84-95 | the sum of SGPA × credits over the sum of credits; bounded by CgpaBounded, order-free by CgpaPermutation |
| GpaCalculator.CgpaBounded | src/GpaCalculator.jsx:84-95 | the CGPA of non-empty valid semesters lies in [0, 10] |
| GpaCalculator.CgpaPermutation | src/GpaCalculator.jsx:84-95 | the CGPA does not depend on the order of the semesters |
| GpaCalculator.SumCourses | src/GpaCalculator.jsx:56-60 | the forEach accumulates exactly the sums of points × credits and of credits |
| GpaCalculator.SumSemesters | src/GpaCalculator.jsx:89-93 | the forEach accumulates exactly the sums of sgpa × credits and of credits |
| GpaCalculator.SumTargetCourses | src/GpaCalculator.jsx:165-172 | the forEach accumulates exactly total credits, locked credits and locked points |
| GpaCalculator.ThresholdSplit | src/GpaCalculator.jsx:118-121 | a weighted mean with one free score reaches the target exactly when the score reaches the solved value, and equals the target at it |
| GpaCalculator.RequiredSgpa | src/GpaCalculator.jsx:104-124 | (dream × (past credits + current credits) − past weighted points) / current credits; its meaning is RequiredSgpaRoundTrip |
| GpaCalculator.RequiredSgpaRoundTrip | src/GpaCalculator.jsx:104-124 | adding a semester with SGPA s over the current credits reaches the dream CGPA exactly when s ≥ the required SGPA; s = required gives exactly the dream CGPA; with no past semesters the required SGPA is the dream CGPA |
| GpaCalculator.PointsWithAverageSplits | src/GpaCalculator.jsx:165-175 | weighted points with every unlocked course at one average are the locked points plus average × unlocked credits |
| GpaCalculator.UnlockedCreditsPositiveIff | src/GpaCalculator.jsx:173-178 | unlocked credits are never negative, and are positive exactly when some course is unlocked |
| GpaCalculator.RequiredAvgPoint | src/GpaCalculator.jsx:173-185 | (target × total credits − locked points) / unlocked credits; its meaning is RequiredAvgPointIsThreshold and RequiredAvgPointRoundTrip |
| GpaCalculator.RequiredAvgPointIsThreshold | src/GpaCalculator.jsx:173-176 | giving every unlocked course one average reaches the target SGPA exactly when that average is at least the required one |
| GpaCalculator.RequiredAvgPointRoundTrip | src/GpaCalculator.jsx:173-176 | giving every unlocked course the required average gives exactly the target SGPA |
| GpaCalculator.ClassifyRequiredSgpa | src/GpaCalculator.jsx:203-211 | the branch getCgpaTargetMessage takes: above 10, from 9.5, from 9.0, from 8.0, at most 0, otherwise; its meaning is ClassifyRequiredSgpaMeaning |
| GpaCalculator.ClassifyRequiredSgpaMeaning | src/GpaCalculator.jsx:203-211 | "impossible" exactly when even a 10 this semester misses the dream CGPA; "guaranteed" exactly when a 0 still reaches it |
| GpaCalculator.ClassifyAvgPoint | src/GpaCalculator.jsx:212-220 | the fallback message names getGradeFromPoints of the average, which is then B+, B, C or Fail |
| GpaCalculator.ClassifyAvgPointMeaning | src/GpaCalculator.jsx:212-220 | "impossible" exactly when all-O in the unlocked courses misses the target; "guaranteed" exactly when 0 points there still reach it |
| GpaCalculator.ExampleLockedO | src/GpaCalculator.jsx:156-186 | one locked O and one open course of 4 credits each, target 9.0, need an average of 8.0, an A |
| GpaCalculator.UpdatedTargetCourses | src/GpaCalculator.jsx:150-155 | records with the id get only the named field changed; every other record and field is unchanged, and the length is kept |
| GpaCalculator.DeletesExactlyTheId | src/GpaCalculator.jsx:66-69 | deleting by id from courses, semesters or target courses keeps exactly the records with other ids |
| GpaCalculator.DeleteAbsentIdKeepsList | src/GpaCalculator.jsx:66-69 | deleting an id no course has leaves the list as it was |
| GpaCalculator.GpaCalculator.Valid | src/GpaCalculator.jsx:23-38 | the session invariant: every stored course, semester and target course passed its add-time checks and has an id below the next one; a stored SGPA, CGPA or target result is the value of the current list; every method keeps it |
| GpaCalculator.GpaCalculator.constructor | src/GpaCalculator.jsx:22-38 | the session starts with empty lists, no results and no error |
| GpaCalculator.GpaCalculator.AddCourse | src/GpaCalculator.jsx:41-50 | credits missing, ≤ 0 or > 10 set the error and change nothing else; otherwise one course with a fresh id is appended and the SGPA is cleared |
| GpaCalculator.GpaCalculator.CalculateSgpa | src/GpaCalculator.jsx:51-62 | no courses sets the error and keeps the old result; otherwise the result is the credit-weighted SGPA, in [0, 10] |
| GpaCalculator.GpaCalculator.ClearSgpa | src/GpaCalculator.jsx:63-65 | courses, SGPA and error are all cleared |
| GpaCalculator.GpaCalculator.DeleteCourse | src/GpaCalculator.jsx:66-69 | the list becomes the courses with other ids, in order, and the SGPA is cleared; the error is untouched |
| GpaCalculator.GpaCalculator.AddSemester | src/GpaCalculator.jsx:70-83 | an SGPA outside [0, 10] and then credits outside (0, 50] set their errors and change nothing else; otherwise one semester is appended and the CGPA is cleared |
| GpaCalculator.GpaCalculator.CalculateCgpa | src/GpaCalculator.jsx:84-95 | no semesters sets the error and keeps the old result; otherwise the result is the credit-weighted CGPA, in [0, 10] |
| GpaCalculator.GpaCalculator.ClearCgpa | src/GpaCalculator.jsx:96-99 | semesters, CGPA and error are all cleared |
| GpaCalculator.GpaCalculator.DeleteSemester | src/GpaCalculator.jsx:100-103 | the list becomes the semesters with other ids, in order, and the CGPA is cleared |
| GpaCalculator.GpaCalculator.CalculateRequiredSgpa | src/GpaCalculator.jsx:104-124 | an invalid dream CGPA, then invalid current credits, set their errors with no result; otherwise the result is the required SGPA |
| GpaCalculator.GpaCalculator.AddSgpaTargetCourse | src/GpaCalculator.jsx:125-145 | a blank name, then invalid credits, set their errors and change nothing else; otherwise an unlocked course graded O is appended and the result cleared |
| GpaCalculator.GpaCalculator.DeleteSgpaTargetCourse | src/GpaCalculator.jsx:146-149 | the list becomes the courses with other ids, in order, and the result is cleared |
| GpaCalculator.GpaCalculator.UpdateSgpaTargetCourse | src/GpaCalculator.jsx:150-155 | the named field of the matching records is set and the result cleared |
| GpaCalculator.GpaCalculator.CalculateSgpaTarget | src/GpaCalculator.jsx:156-186 | an invalid target or an empty list sets the error and keeps the old result; all credits locked sets the error and clears the result; otherwise the result is the required average point and its grade |
| GpaCalculator.GpaCalculator.ClearSgpaTarget | src/GpaCalculator.jsx:187-192 | target courses, result and error are all cleared |
| Dashboard.BucketOf | src/Dashboard.jsx:50-57 | each grade goes to its own bucket, except RA, which goes to Fail |
| Dashboard.Histogram | src/Dashboard.jsx:50-57 | seven bucket counts, one per grade bucket, each the number of courses in that bucket; its total is HistogramTotal |
| Dashboard.HistogramStep | src/Dashboard.jsx:51-56 | one more course adds one to its own bucket and leaves the others alone |
| Dashboard.HistogramTotal | src/Dashboard.jsx:50-57 | the bucket counts sum to the number of courses |
| Dashboard.GradeCounts | src/Dashboard.jsx:50-57 | the forEach builds exactly the histogram, whose counts sum to the number of courses |
| Dashboard.OverallStats | src/Dashboard.jsx:73-89 | there is a CGPA exactly when there are semesters, and it is the credit-weighted mean; the trend is up iff the last SGPA beats the first, down iff it is below, flat otherwise or with fewer than two semesters |
| Dashboard.MostCommonGrade | src/Dashboard.jsx:90-99 | none without courses; otherwise none exactly when every count is zero, and else the first bucket with the largest count, never RA |
| Dashboard.BarChart | src/Dashboard.jsx:58-72 | the separately filtered labels and counts have equal length, line up entry by entry, list every bucket with a positive count and keep bucket order |
| Dashboard.BarSeriesAligned | src/Dashboard.jsx:59-63 | the two filters keep the same buckets in the same positions |
| Dashboard.BarEntriesMatch | src/Dashboard.jsx:59-63 | the separately filtered labels and counts have equal length, and each bar is the positive count of its label's bucket |
| Dashboard.BarLabelsCover | src/Dashboard.jsx:59 | every bucket with a positive count keeps its label |
| Dashboard.BucketLabelsOrdered | src/Dashboard.jsx:59 | filtered bucket labels stay in O, A+, A, B+, B, C, Fail order |
| Dashboard.LineChart | src/Dashboard.jsx:37-49 | one label per semester counting from 1, and the SGPAs in list order |
| Dashboard.Render | src/Dashboard.jsx:34-99 | the view holds both charts, a CGPA exactly when there are semesters, a rising trend exactly when the last SGPA is above the first and a falling trend exactly when it is below, and a most common grade exactly when there are courses: the first bucket with the largest count |

## Left out

- The parts of the app with nothing to prove:
  - JSX, styles, animation, icons and chart.js options.
  - The text of every message and colour.
  - `getGpaMessage` (src/GpaCalculator.jsx:195-202), which only words a result already computed.
  - The unused `GRADE_POINTS` in src/Dashboard.jsx:30-32.
- Floating point: all arithmetic is exact `real` arithmetic. JavaScript's rounding of sums and quotients is not modelled.
- `toFixed(2)`: results are stored unrounded.
  - GpaCalculator.GpaCalculator.CalculateSgpa, GpaCalculator.GpaCalculator.CalculateCgpa, GpaCalculator.GpaCalculator.CalculateRequiredSgpa and GpaCalculator.GpaCalculator.CalculateSgpaTarget store the exact value.
  - The source stores a two-decimal string.
- GpaCalculator.ClassifyRequiredSgpa and GpaCalculator.ClassifyAvgPoint classify the exact value. The source classifies the two-decimal string (src/GpaCalculator.jsx:183, 212-213, 548, 640), so the tiers can differ within 0.005 of a threshold: a required SGPA of 10.004 shows the perfect-semester message in the source and "impossible" here, and an average point of 7.496 shows the A message in the source and B+ here.
- GpaCalculator.GpaCalculator.CalculateRequiredSgpa and GpaCalculator.GpaCalculator.CalculateSgpaTarget compute the solved value through `ScoreNeeded`, with the same operations on the same sums as the source's three lines.
- GpaCalculator.GpaCalculator.Valid: the required SGPA is not part of the cache invariant.
  - As in the source, adding, deleting or clearing semesters does not clear it, so it can go stale.
  - The model keeps that behaviour.
- GpaCalculator.IsBlank: approximates `String.prototype.trim`. It recognises space, tab, line feed, carriage return, vertical tab, form feed and no-break space, not every Unicode space character.
- Ids: `Date.now()` is replaced by a counter, which makes ids fresh. Two additions in the same millisecond would share an id in the source; the model does not capture that.
- `courses` and `semesters` are props owned by the parent component (src/GpaCalculator.jsx:22). The model makes them fields of the calculator session, starting empty, so that one invariant covers them and their cached results.
- React state and reactivity:
  - Each component's state becomes explicit class fields or method results.
  - Mode switching and clearing the text inputs after an action are not modelled.
  - GradePredictor.CalculatePredictions returns its outcome instead of setting `prediction` and `error` state.
  - The keystroke filters `handleInternalChange` and `handleSemExamChange` (src/GradePredictor.jsx:65-92) are not modelled; the validation inside `calculatePredictions` is.
- Input parsing: `Number`/`parseFloat` of a field becomes an `Option<real>`, with `None` for a blank or non-numeric field. Partial parses such as `parseFloat("9abc")` are not modelled.
- Dashboard.OverallStats and Dashboard.Render require positive semester credits. The dashboard receives the semesters the calculator has already validated; with zero total credits the source would show NaN.
- Dashboard.LineChart: a label is the semester's number. The `Sem ` prefix of the string is not modelled.
- The `hasOwnProperty` test in src/Dashboard.jsx:52: with the closed `Grade` type every grade other than RA has a bucket, so its else-branch covers only RA.
- The subject card's click handler, its delete callback and subject persistence are outside this model.

## Findings

| source | as written | input that shows it | evidently intended | confidence | as-written member | corrected member |
|---|---|---|---|---|---|---|
| src/GradePredictor.jsx:113-115 (same pattern in src/SubjectCard.jsx:56-58) | a band the internal mark already reaches is labelled "Guaranteed X or better", where X is getGrade(internal + 40): the grade of a perfect exam, not a certain one | internal 55: the B row says "Guaranteed O or better", but an exam mark of 0 gives a total of 55, a B | name getGrade(internal), the grade even an exam mark of 0 gives, which every mark in [0, 75] meets or beats | not executed | GradePredictor.GuaranteedGradeAsWrittenOverclaims | GradePredictor.GuaranteedGradeIsCertain |

The prediction table (`GradePredictor.NeededRow`) and the subject card (`SubjectCard.BandTarget`, `SubjectCard.TargetGrades`) keep the as-written text, getGrade(internal + 40). `SubjectCard.AssuredRowOverclaims` shows the same input on the card's C row. `GradePredictor.GuaranteedGrade` is the corrected definition, and `GradePredictor.GuaranteedGradeIsCertain` proves the intended property about it.
