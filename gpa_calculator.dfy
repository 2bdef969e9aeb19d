// GPA arithmetic: grade points, credit-weighted SGPA and CGPA, the two
// target solvers (the SGPA a dream CGPA needs, and the average grade point the
// unlocked courses need for a target SGPA), the thresholds the result
// messages branch on, and the calculator's session state.
module GpaCalculator {
  import opened Util

  /** The grades of this table: RA and Fail both exist, Pass does not. */
  datatype Grade = O | APlus | A | BPlus | B | C | RA | Fail

  /** GRADE_POINTS. */
  function GradePoints(g: Grade): (p: nat)
    ensures p <= 10
  {
    match g
    case O => 10
    case APlus => 9
    case A => 8
    case BPlus => 7
    case B => 6
    case C => 5
    case RA => 0
    case Fail => 0
  }

  /** getGradeFromPoints: the grade an average grade point rounds to. */
  function GradeFromPoints(points: real): (g: Grade)
    ensures g != RA
  {
    if points >= 9.5 then O
    else if points >= 8.5 then APlus
    else if points >= 7.5 then A
    else if points >= 6.5 then BPlus
    else if points >= 5.5 then B
    else if points >= 5.0 then C
    else Fail
  }

  /** A higher average never maps to a grade worth fewer points. */
  lemma GradeFromPointsMonotone(p: real, q: real)
    requires p <= q
    ensures GradePoints(GradeFromPoints(p)) <= GradePoints(GradeFromPoints(q))
  {
  }

  /** From 5.0 up to 10.5 the grade is the one whose point value is nearest
      (halves rounding up); below 5.0 it is Fail. */
  lemma GradeFromPointsNearest(p: real)
    ensures 5.0 <= p < 10.5 ==>
              GradePoints(GradeFromPoints(p)) as real - 0.5 <= p < GradePoints(GradeFromPoints(p)) as real + 0.5
    ensures p < 5.0 <==> GradeFromPoints(p) == Fail
  {
  }

  /** Mapping a grade's own point value back gives the grade, with RA read as
      Fail. */
  lemma GradeFromPointsRoundTrip(g: Grade)
    ensures GradeFromPoints(GradePoints(g) as real) == if g == RA then Fail else g
  {
  }

  // ---------------------------------------------------------------------------
  // Records and credit-weighted averages.

  datatype Course = Course(id: nat, grade: Grade, credits: real)

  datatype Semester = Semester(id: nat, sgpa: real, credits: real)

  datatype TargetCourse = TargetCourse(id: nat, name: string, credits: real, grade: Grade, isLocked: bool)

  /** The credit bound addCourse and addSgpaTargetCourse enforce. */
  predicate ValidCourseCredits(credits: real)
  {
    0.0 < credits <= 10.0
  }

  /** The bounds addSemester enforces. */
  predicate ValidSemester(s: Semester)
  {
    0.0 <= s.sgpa <= 10.0 && 0.0 < s.credits <= 50.0
  }

  predicate AllCoursesValid(courses: seq<Course>)
  {
    forall c :: c in courses ==> ValidCourseCredits(c.credits)
  }

  predicate AllCreditsPositive(semesters: seq<Semester>)
  {
    forall s :: s in semesters ==> s.credits > 0.0
  }

  function CoursePoints(c: Course): real
  {
    GradePoints(c.grade) as real * c.credits
  }

  function CourseCredits(c: Course): real
  {
    c.credits
  }

  function SemesterPoints(s: Semester): real
  {
    s.sgpa * s.credits
  }

  function SemesterCredits(s: Semester): real
  {
    s.credits
  }

  /** Credit-weighted mean grade point of a non-empty course list. */
  function Sgpa(courses: seq<Course>): real
    requires courses != [] && AllCoursesValid(courses)
  {
    SumOfPositive(courses, CourseCredits);
    SumOf(courses, CoursePoints) / SumOf(courses, CourseCredits)
  }

  /** Credit-weighted mean SGPA of a non-empty semester list. */
  function Cgpa(semesters: seq<Semester>): real
    requires semesters != [] && AllCreditsPositive(semesters)
  {
    SumOfPositive(semesters, SemesterCredits);
    SumOf(semesters, SemesterPoints) / SumOf(semesters, SemesterCredits)
  }

  /** p / c lies in [0, k] when p lies in [0, k * c]. */
  lemma QuotientBounded(p: real, c: real, k: real)
    requires c > 0.0 && 0.0 <= p <= k * c
    ensures 0.0 <= p / c <= k
  {
  }

  /** p / c reaches t exactly when p reaches t * c. */
  lemma QuotientAtLeast(p: real, c: real, t: real)
    requires c > 0.0
    ensures p / c >= t <==> p >= t * c
  {
  }

  lemma DivMulCancel(x: real, c: real)
    requires c != 0.0
    ensures x / c * c == x && x * c / c == x
  {
  }

  /** The score over free credits that, added to base points, brings total
      credits to a mean of target. */
  function ScoreNeeded(base: real, total: real, free: real, target: real): real
    requires free > 0.0
  {
    (target * total - base) / free
  }

  /** A weighted mean of points = base + x * free over total credits reaches
      target exactly when x reaches ScoreNeeded, and equals target at that x. */
  lemma ThresholdSplit(points: real, base: real, x: real, free: real, total: real, target: real)
    requires free > 0.0 && total > 0.0 && points == base + x * free
    ensures points / total >= target <==> x >= ScoreNeeded(base, total, free, target)
    ensures x == ScoreNeeded(base, total, free, target) ==> points / total == target
  {
    var need := target * total - base;
    QuotientAtLeast(base + x * free, total, target);
    QuotientAtLeast(x * free, free, need / free);
    DivMulCancel(need, free);
    DivMulCancel(x, free);
    DivMulCancel(target, total);
  }

  /** SGPA lies in [0, 10]. */
  lemma SgpaBounded(courses: seq<Course>)
    requires courses != [] && AllCoursesValid(courses)
    ensures 0.0 <= Sgpa(courses) <= 10.0
  {
    SumOfBounded(courses, CoursePoints, CourseCredits, 10.0);
    SumOfPositive(courses, CourseCredits);
    QuotientBounded(SumOf(courses, CoursePoints), SumOf(courses, CourseCredits), 10.0);
  }

  /** SGPA does not depend on the order of the courses. */
  lemma SgpaPermutation(a: seq<Course>, b: seq<Course>)
    requires a != [] && AllCoursesValid(a)
    requires multiset(a) == multiset(b)
    ensures b != [] && AllCoursesValid(b)
    ensures Sgpa(a) == Sgpa(b)
  {
    assert |multiset(b)| == |a|;
    forall c | c in b
      ensures ValidCourseCredits(c.credits)
    {
      assert c in multiset(a);
    }
    SumOfPermutation(a, b, CoursePoints);
    SumOfPermutation(a, b, CourseCredits);
  }

  /** CGPA of valid semesters lies in [0, 10]. */
  lemma CgpaBounded(semesters: seq<Semester>)
    requires semesters != [] && forall s :: s in semesters ==> ValidSemester(s)
    ensures AllCreditsPositive(semesters)
    ensures 0.0 <= Cgpa(semesters) <= 10.0
  {
    forall s | s in semesters
      ensures 0.0 <= SemesterPoints(s) <= 10.0 * SemesterCredits(s)
    {
      assert ValidSemester(s);
      assert s.sgpa * s.credits <= 10.0 * s.credits;
    }
    SumOfBounded(semesters, SemesterPoints, SemesterCredits, 10.0);
    SumOfPositive(semesters, SemesterCredits);
    QuotientBounded(SumOf(semesters, SemesterPoints), SumOf(semesters, SemesterCredits), 10.0);
  }

  /** CGPA does not depend on the order of the semesters. */
  lemma CgpaPermutation(a: seq<Semester>, b: seq<Semester>)
    requires a != [] && AllCreditsPositive(a)
    requires multiset(a) == multiset(b)
    ensures b != [] && AllCreditsPositive(b)
    ensures Cgpa(a) == Cgpa(b)
  {
    assert |multiset(b)| == |a|;
    forall s | s in b
      ensures s.credits > 0.0
    {
      assert s in multiset(a);
    }
    SumOfPermutation(a, b, SemesterPoints);
    SumOfPermutation(a, b, SemesterCredits);
  }

  /** The forEach of calculateSgpa: running totals of points and credits. */
  method SumCourses(courses: seq<Course>) returns (totalPoints: real, totalCredits: real)
    ensures totalPoints == SumOf(courses, CoursePoints)
    ensures totalCredits == SumOf(courses, CourseCredits)
  {
    totalPoints, totalCredits := 0.0, 0.0;
    for i := 0 to |courses|
      invariant totalPoints == SumOf(courses[..i], CoursePoints)
      invariant totalCredits == SumOf(courses[..i], CourseCredits)
    {
      assert courses[..i + 1][..i] == courses[..i];
      totalPoints := totalPoints + GradePoints(courses[i].grade) as real * courses[i].credits;
      totalCredits := totalCredits + courses[i].credits;
    }
    assert courses[..|courses|] == courses;
  }

  /** The forEach of calculateCgpa and calculateRequiredSgpa: running totals of
      weighted points and credits. */
  method SumSemesters(semesters: seq<Semester>) returns (totalWeightedPoints: real, totalCredits: real)
    ensures totalWeightedPoints == SumOf(semesters, SemesterPoints)
    ensures totalCredits == SumOf(semesters, SemesterCredits)
  {
    totalWeightedPoints, totalCredits := 0.0, 0.0;
    for i := 0 to |semesters|
      invariant totalWeightedPoints == SumOf(semesters[..i], SemesterPoints)
      invariant totalCredits == SumOf(semesters[..i], SemesterCredits)
    {
      assert semesters[..i + 1][..i] == semesters[..i];
      totalWeightedPoints := totalWeightedPoints + semesters[i].sgpa * semesters[i].credits;
      totalCredits := totalCredits + semesters[i].credits;
    }
    assert semesters[..|semesters|] == semesters;
  }

  // ---------------------------------------------------------------------------
  // Required SGPA for a dream CGPA.

  /** calculateRequiredSgpa: the SGPA that, over this semester's credits, lifts
      the past semesters to the dream CGPA. */
  function RequiredSgpa(semesters: seq<Semester>, dreamCgpa: real, currentCredits: real): real
    requires currentCredits > 0.0
  {
    var pastWeightedPoints := SumOf(semesters, SemesterPoints);
    var pastCredits := SumOf(semesters, SemesterCredits);
    ScoreNeeded(pastWeightedPoints, pastCredits + currentCredits, currentCredits, dreamCgpa)
  }

  /** Scoring s over the current credits reaches the dream CGPA exactly when s
      is at least the required SGPA; scoring exactly the required SGPA lands
      on the dream CGPA; with no past semesters the required SGPA is the dream
      CGPA itself. */
  lemma RequiredSgpaRoundTrip(semesters: seq<Semester>, dreamCgpa: real, currentCredits: real, id: nat, s: real)
    requires AllCreditsPositive(semesters)
    requires currentCredits > 0.0
    ensures var next := semesters + [Semester(id, s, currentCredits)];
            && AllCreditsPositive(next)
            && (Cgpa(next) >= dreamCgpa <==> s >= RequiredSgpa(semesters, dreamCgpa, currentCredits))
            && (s == RequiredSgpa(semesters, dreamCgpa, currentCredits) ==> Cgpa(next) == dreamCgpa)
    ensures semesters == [] ==> RequiredSgpa(semesters, dreamCgpa, currentCredits) == dreamCgpa
  {
    var x := Semester(id, s, currentCredits);
    var next := semesters + [x];
    var p := SumOf(semesters, SemesterPoints);
    var c := SumOf(semesters, SemesterCredits);
    SumOfConcat(semesters, [x], SemesterPoints);
    SumOfConcat(semesters, [x], SemesterCredits);
    assert [x][..0] == [];
    if semesters != [] {
      SumOfPositive(semesters, SemesterCredits);
    }
    assert SumOf(next, SemesterPoints) == p + s * currentCredits;
    assert SumOf(next, SemesterCredits) == c + currentCredits;
    ThresholdSplit(SumOf(next, SemesterPoints), p, s, currentCredits, c + currentCredits, dreamCgpa);
    DivMulCancel(dreamCgpa, currentCredits);
  }

  // ---------------------------------------------------------------------------
  // Required average grade point for a target SGPA with locked courses.

  function TargetCredits(c: TargetCourse): real
  {
    c.credits
  }

  function LockedCredits(c: TargetCourse): real
  {
    if c.isLocked then c.credits else 0.0
  }

  function LockedPoints(c: TargetCourse): real
  {
    if c.isLocked then GradePoints(c.grade) as real * c.credits else 0.0
  }

  /** Credits not locked: totalCredits - lockedCredits. */
  function UnlockedCredits(courses: seq<TargetCourse>): real
  {
    SumOf(courses, TargetCredits) - SumOf(courses, LockedCredits)
  }

  /** The average point the unlocked courses need. */
  function RequiredAvgPoint(courses: seq<TargetCourse>, target: real): real
    requires UnlockedCredits(courses) > 0.0
  {
    ScoreNeeded(SumOf(courses, LockedPoints), SumOf(courses, TargetCredits), UnlockedCredits(courses), target)
  }

  /** A course's weighted points when the unlocked courses all score avg. */
  function PointsAt(c: TargetCourse, avg: real): real
  {
    if c.isLocked then GradePoints(c.grade) as real * c.credits else avg * c.credits
  }

  /** Weighted points when every unlocked course scores avg and every locked
      course its own grade. */
  function PointsWithAverage(courses: seq<TargetCourse>, avg: real): real
  {
    if courses == [] then 0.0
    else PointsWithAverage(courses[..|courses| - 1], avg) + PointsAt(courses[|courses| - 1], avg)
  }

  lemma {:induction false} PointsWithAverageSplits(courses: seq<TargetCourse>, avg: real)
    ensures PointsWithAverage(courses, avg) == SumOf(courses, LockedPoints) + avg * UnlockedCredits(courses)
  {
    if courses != [] {
      PointsWithAverageSplits(courses[..|courses| - 1], avg);
      PointsWithAverageStep(courses, avg);
    } else {
      assert UnlockedCredits(courses) == 0.0;
    }
  }

  /** One more course keeps the split of PointsWithAverageSplits. */
  lemma PointsWithAverageStep(courses: seq<TargetCourse>, avg: real)
    requires courses != []
    requires var init := courses[..|courses| - 1];
             PointsWithAverage(init, avg) == SumOf(init, LockedPoints) + avg * UnlockedCredits(init)
    ensures PointsWithAverage(courses, avg) == SumOf(courses, LockedPoints) + avg * UnlockedCredits(courses)
  {
    var init := courses[..|courses| - 1];
    var c := courses[|courses| - 1];
    PointsAtSplits(c, avg);
    UnlockedCreditsStep(courses);
    SplitsAdd(PointsWithAverage(init, avg), PointsAt(c, avg), SumOf(init, LockedPoints), LockedPoints(c),
              UnlockedCredits(init), TargetCredits(c) - LockedCredits(c), avg,
              PointsWithAverage(courses, avg), SumOf(courses, LockedPoints), UnlockedCredits(courses));
  }

  /** The last course adds its locked points and its unlocked credits. */
  lemma UnlockedCreditsStep(courses: seq<TargetCourse>)
    requires courses != []
    ensures var init, c := courses[..|courses| - 1], courses[|courses| - 1];
            && SumOf(courses, LockedPoints) == SumOf(init, LockedPoints) + LockedPoints(c)
            && UnlockedCredits(courses) == UnlockedCredits(init) + (TargetCredits(c) - LockedCredits(c))
  {
  }

  lemma PointsAtSplits(c: TargetCourse, avg: real)
    ensures PointsAt(c, avg) == LockedPoints(c) + avg * (TargetCredits(c) - LockedCredits(c))
  {
  }

  /** Two parts of the form locked + avg * unlocked add up to one of that form. */
  lemma SplitsAdd(p: real, q: real, l: real, lc: real, u: real, uc: real, avg: real,
                  total: real, lockedAll: real, unlockedAll: real)
    requires p == l + avg * u && q == lc + avg * uc
    requires total == p + q && lockedAll == l + lc && unlockedAll == u + uc
    ensures total == lockedAll + avg * unlockedAll
  {
    Distribute(avg, u, uc);
  }

  lemma Distribute(a: real, x: real, y: real)
    ensures a * (x + y) == a * x + a * y
  {
  }

  /** With positive credits, some credit is left unlocked exactly when some
      course is unlocked. */
  lemma {:induction false} UnlockedCreditsPositiveIff(courses: seq<TargetCourse>)
    requires forall c :: c in courses ==> c.credits > 0.0
    ensures UnlockedCredits(courses) >= 0.0
    ensures UnlockedCredits(courses) > 0.0 <==> exists i :: 0 <= i < |courses| && !courses[i].isLocked
  {
    if courses != [] {
      var n := |courses| - 1;
      var init := courses[..n];
      assert forall c :: c in init ==> c in courses;
      UnlockedCreditsPositiveIff(init);
      assert courses[n] in courses;
      if exists i :: 0 <= i < |init| && !init[i].isLocked {
        var i :| 0 <= i < |init| && !init[i].isLocked;
        assert courses[i] == init[i];
      }
      if exists i :: 0 <= i < |courses| && !courses[i].isLocked {
        var i :| 0 <= i < |courses| && !courses[i].isLocked;
        if i < n {
          assert init[i] == courses[i];
        }
      }
    }
  }

  /** Giving every unlocked course the same average point reaches the target
      SGPA exactly when that average is at least the required one. */
  lemma RequiredAvgPointIsThreshold(courses: seq<TargetCourse>, target: real, avg: real)
    requires UnlockedCredits(courses) > 0.0
    requires SumOf(courses, TargetCredits) > 0.0
    ensures PointsWithAverage(courses, avg) / SumOf(courses, TargetCredits) >= target
            <==> avg >= RequiredAvgPoint(courses, target)
  {
    PointsWithAverageSplits(courses, avg);
    ThresholdSplit(PointsWithAverage(courses, avg), SumOf(courses, LockedPoints), avg,
                   UnlockedCredits(courses), SumOf(courses, TargetCredits), target);
  }

  /** Scoring exactly the required average in every unlocked course lands on
      the target SGPA. */
  lemma RequiredAvgPointRoundTrip(courses: seq<TargetCourse>, target: real)
    requires UnlockedCredits(courses) > 0.0
    requires SumOf(courses, TargetCredits) > 0.0
    ensures PointsWithAverage(courses, RequiredAvgPoint(courses, target)) / SumOf(courses, TargetCredits) == target
  {
    var req := RequiredAvgPoint(courses, target);
    PointsWithAverageSplits(courses, req);
    ThresholdSplit(PointsWithAverage(courses, req), SumOf(courses, LockedPoints), req,
                   UnlockedCredits(courses), SumOf(courses, TargetCredits), target);
  }

  // ---------------------------------------------------------------------------
  // The thresholds of the target messages.

  datatype CgpaTargetClass = CgpaImpossible | PerfectSemester | Tough | SolidGoal | CgpaGuaranteed | Manageable

  /** getCgpaTargetMessage, by the branch it takes. */
  function ClassifyRequiredSgpa(gpa: real): (k: CgpaTargetClass)
  {
    if gpa > 10.0 then CgpaImpossible
    else if gpa >= 9.5 then PerfectSemester
    else if gpa >= 9.0 then Tough
    else if gpa >= 8.0 then SolidGoal
    else if gpa <= 0.0 then CgpaGuaranteed
    else Manageable
  }

  /** The dream CGPA is classed impossible exactly when even a perfect 10 this
      semester falls short of it, and guaranteed exactly when a 0 reaches it. */
  lemma ClassifyRequiredSgpaMeaning(semesters: seq<Semester>, dreamCgpa: real, currentCredits: real, id: nat)
    requires AllCreditsPositive(semesters)
    requires currentCredits > 0.0
    ensures var k := ClassifyRequiredSgpa(RequiredSgpa(semesters, dreamCgpa, currentCredits));
            && (k == CgpaImpossible <==> Cgpa(semesters + [Semester(id, 10.0, currentCredits)]) < dreamCgpa)
            && (k == CgpaGuaranteed <==> Cgpa(semesters + [Semester(id, 0.0, currentCredits)]) >= dreamCgpa)
  {
    RequiredSgpaRoundTrip(semesters, dreamCgpa, currentCredits, id, 10.0);
    RequiredSgpaRoundTrip(semesters, dreamCgpa, currentCredits, id, 0.0);
  }

  datatype SgpaTargetClass = SgpaImpossible | AverageO | AverageAPlus | AverageA | SgpaGuaranteed | AimFor(grade: Grade)

  /** getSgpaTargetMessage, by the branch it takes. */
  function ClassifyAvgPoint(points: real): (k: SgpaTargetClass)
    ensures k.AimFor? ==> k.grade in {BPlus, B, C, Fail} && k.grade == GradeFromPoints(points)
  {
    if points > 10.0 then SgpaImpossible
    else if points >= 9.5 then AverageO
    else if points >= 8.5 then AverageAPlus
    else if points >= 7.5 then AverageA
    else if points <= 0.0 then SgpaGuaranteed
    else AimFor(GradeFromPoints(points))
  }

  /** Impossible exactly when even all-O (10 points) in the unlocked courses
      falls short; guaranteed exactly when 0 points there still reach it. */
  lemma ClassifyAvgPointMeaning(courses: seq<TargetCourse>, target: real)
    requires UnlockedCredits(courses) > 0.0
    requires SumOf(courses, TargetCredits) > 0.0
    ensures var k := ClassifyAvgPoint(RequiredAvgPoint(courses, target));
            && (k == SgpaImpossible <==> PointsWithAverage(courses, 10.0) / SumOf(courses, TargetCredits) < target)
            && (k == SgpaGuaranteed <==> PointsWithAverage(courses, 0.0) / SumOf(courses, TargetCredits) >= target)
  {
    RequiredAvgPointIsThreshold(courses, target, 10.0);
    RequiredAvgPointIsThreshold(courses, target, 0.0);
  }

  /** The worked example: one locked O and one open course of 4 credits each,
      target 9.0, need an average of 8.0, an A. */
  lemma ExampleLockedO()
    ensures var cs := [TargetCourse(1, "Maths", 4.0, O, true), TargetCourse(2, "Physics", 4.0, O, false)];
            && UnlockedCredits(cs) == 4.0
            && RequiredAvgPoint(cs, 9.0) == 8.0
            && GradeFromPoints(RequiredAvgPoint(cs, 9.0)) == A
  {
    var cs := [TargetCourse(1, "Maths", 4.0, O, true), TargetCourse(2, "Physics", 4.0, O, false)];
    assert cs[..1][..0] == [];
    assert cs[..1] == [cs[0]];
    assert SumOf(cs[..1], TargetCredits) == 4.0 && SumOf(cs, TargetCredits) == 8.0;
    assert SumOf(cs[..1], LockedCredits) == 4.0 && SumOf(cs, LockedCredits) == 4.0;
    assert cs[..|cs| - 1] == cs[..1];
    assert SumOf(cs, LockedPoints) == SumOf(cs[..1], LockedPoints) + LockedPoints(cs[1]);
    assert SumOf(cs[..1], LockedPoints) == 40.0 && SumOf(cs, LockedPoints) == 40.0;
  }

  // ---------------------------------------------------------------------------
  // Session state.

  datatype CalcError =
    | InvalidCourseCredits
    | NoCourses
    | InvalidSgpa
    | InvalidSemesterCredits
    | NoSemesters
    | InvalidDreamCgpa
    | InvalidCurrentCredits
    | MissingCourseName
    | InvalidTargetCourseCredits
    | InvalidTargetSgpa
    | NoTargetCourses
    | AllLocked

  datatype TargetResult = TargetResult(avgPoint: real, avgGrade: Grade)

  /** The two fields the target-course list lets a user change. */
  datatype FieldUpdate = SetGrade(grade: Grade) | SetLocked(isLocked: bool)

  function TargetResultFor(courses: seq<TargetCourse>, target: real): TargetResult
    requires UnlockedCredits(courses) > 0.0
  {
    TargetResult(RequiredAvgPoint(courses, target), GradeFromPoints(RequiredAvgPoint(courses, target)))
  }

  /** The characters String.prototype.trim removes that this model knows of. */
  predicate IsWhitespace(ch: char)
  {
    ch == ' ' || ch == '\t' || ch == '\n' || ch == '\r' || ch == '\U{000B}' || ch == '\U{000C}' || ch == '\U{00A0}'
  }

  predicate IsBlank(name: string)
  {
    forall i :: 0 <= i < |name| ==> IsWhitespace(name[i])
  }

  function WithoutCourse(courses: seq<Course>, id: nat): seq<Course>
  {
    Filter(courses, (c: Course) => c.id != id)
  }

  function WithoutSemester(semesters: seq<Semester>, id: nat): seq<Semester>
  {
    Filter(semesters, (s: Semester) => s.id != id)
  }

  function WithoutTargetCourse(courses: seq<TargetCourse>, id: nat): seq<TargetCourse>
  {
    Filter(courses, (c: TargetCourse) => c.id != id)
  }

  function Apply(c: TargetCourse, u: FieldUpdate): TargetCourse
  {
    match u
    case SetGrade(g) => c.(grade := g)
    case SetLocked(b) => c.(isLocked := b)
  }

  /** updateSgpaTargetCourse's map: the records with the id get the update. */
  function UpdatedTargetCourses(courses: seq<TargetCourse>, id: nat, u: FieldUpdate): (r: seq<TargetCourse>)
    ensures |r| == |courses|
    ensures forall i :: 0 <= i < |r| && courses[i].id != id ==> r[i] == courses[i]
    ensures forall i :: 0 <= i < |r| && courses[i].id == id ==>
              && r[i].id == courses[i].id && r[i].name == courses[i].name && r[i].credits == courses[i].credits
              && r[i].grade == (if u.SetGrade? then u.grade else courses[i].grade)
              && r[i].isLocked == (if u.SetLocked? then u.isLocked else courses[i].isLocked)
  {
    seq(|courses|, i requires 0 <= i < |courses| => if courses[i].id == id then Apply(courses[i], u) else courses[i])
  }

  /** Deleting by id keeps exactly the records with other ids. */
  lemma DeletesExactlyTheId(courses: seq<Course>, semesters: seq<Semester>, targets: seq<TargetCourse>, id: nat)
    ensures forall c :: c in WithoutCourse(courses, id) <==> c in courses && c.id != id
    ensures forall s :: s in WithoutSemester(semesters, id) <==> s in semesters && s.id != id
    ensures forall c :: c in WithoutTargetCourse(targets, id) <==> c in targets && c.id != id
  {
    forall c | c in WithoutCourse(courses, id)
      ensures c in courses && c.id != id
    {
      var i :| 0 <= i < |WithoutCourse(courses, id)| && WithoutCourse(courses, id)[i] == c;
    }
    forall c | c in courses && c.id != id
      ensures c in WithoutCourse(courses, id)
    {
      var i :| 0 <= i < |courses| && courses[i] == c;
    }
    forall s | s in WithoutSemester(semesters, id)
      ensures s in semesters && s.id != id
    {
      var i :| 0 <= i < |WithoutSemester(semesters, id)| && WithoutSemester(semesters, id)[i] == s;
    }
    forall s | s in semesters && s.id != id
      ensures s in WithoutSemester(semesters, id)
    {
      var i :| 0 <= i < |semesters| && semesters[i] == s;
    }
    forall c | c in WithoutTargetCourse(targets, id)
      ensures c in targets && c.id != id
    {
      var i :| 0 <= i < |WithoutTargetCourse(targets, id)| && WithoutTargetCourse(targets, id)[i] == c;
    }
    forall c | c in targets && c.id != id
      ensures c in WithoutTargetCourse(targets, id)
    {
      var i :| 0 <= i < |targets| && targets[i] == c;
    }
  }

  /** Deleting an id no record has leaves the list as it was. */
  lemma DeleteAbsentIdKeepsList(courses: seq<Course>, id: nat)
    requires forall c :: c in courses ==> c.id != id
    ensures WithoutCourse(courses, id) == courses
  {
    FilterAllKept(courses, (c: Course) => c.id != id);
  }

  /** The calculator's state: the three record lists, the cached results, the
      error shown, and the clock that hands out fresh ids. */
  class GpaCalculator {
    var courses: seq<Course>
    var semesters: seq<Semester>
    var targetCourses: seq<TargetCourse>
    var finalSgpa: Option<real>
    var finalCgpa: Option<real>
    var requiredSgpa: Option<real>
    var targetResult: Option<TargetResult>
    var error: Option<CalcError>
    var nextId: nat
    /** The target SGPA the current targetResult was computed for. */
    ghost var targetGoal: real

    /** Every record passed validation and has an id below the clock; a cached
        SGPA, CGPA or target result is the value of the current list. */
    ghost predicate Valid()
      reads this
    {
      CoursesValid() && SemestersValid() && TargetCoursesValid()
    }

    ghost predicate CoursesValid()
      reads this`courses, this`finalSgpa, this`nextId
    {
      && (forall c :: c in courses ==> ValidCourseCredits(c.credits) && c.id < nextId)
      && (finalSgpa.Some? ==> courses != [] && finalSgpa.value == Sgpa(courses))
    }

    ghost predicate SemestersValid()
      reads this`semesters, this`finalCgpa, this`nextId
    {
      && (forall s :: s in semesters ==> ValidSemester(s) && s.id < nextId)
      && (finalCgpa.Some? ==> semesters != [] && finalCgpa.value == Cgpa(semesters))
    }

    ghost predicate TargetCoursesValid()
      reads this`targetCourses, this`targetResult, this`targetGoal, this`nextId
    {
      && (forall c :: c in targetCourses ==> ValidCourseCredits(c.credits) && !IsBlank(c.name) && c.id < nextId)
      && (targetResult.Some? ==>
            UnlockedCredits(targetCourses) > 0.0 && targetResult.value == TargetResultFor(targetCourses, targetGoal))
    }

    constructor ()
      ensures Valid()
      ensures courses == [] && semesters == [] && targetCourses == []
      ensures finalSgpa == None && finalCgpa == None && requiredSgpa == None && targetResult == None
      ensures error == None
    {
      courses, semesters, targetCourses := [], [], [];
      finalSgpa, finalCgpa, requiredSgpa, targetResult := None, None, None, None;
      error := None;
      nextId := 0;
      targetGoal := 0.0;
    }

    /** addCourse: credits must be a number in (0, 10]. */
    method AddCourse(grade: Grade, credits: Option<real>)
      requires Valid()
      modifies this`courses, this`finalSgpa, this`error, this`nextId
      ensures Valid()
      ensures credits.Some? && ValidCourseCredits(credits.value) ==>
                && courses == old(courses) + [Course(old(nextId), grade, credits.value)]
                && (forall c :: c in old(courses) ==> c.id != old(nextId))
                && finalSgpa == None && error == None
      ensures !(credits.Some? && ValidCourseCredits(credits.value)) ==>
                && courses == old(courses) && finalSgpa == old(finalSgpa) && nextId == old(nextId)
                && error == Some(InvalidCourseCredits)
    {
      error := None;
      if credits.None? || credits.value <= 0.0 || credits.value > 10.0 {
        error := Some(InvalidCourseCredits);
        return;
      }
      var newCourse := Course(nextId, grade, credits.value);
      nextId := nextId + 1;
      courses := courses + [newCourse];
      finalSgpa := None;
    }

    /** calculateSgpa. */
    method CalculateSgpa()
      requires Valid()
      modifies this`finalSgpa, this`error
      ensures Valid()
      ensures courses == [] ==> error == Some(NoCourses) && finalSgpa == old(finalSgpa)
      ensures courses != [] ==>
                && error == None && finalSgpa == Some(Sgpa(courses))
                && 0.0 <= finalSgpa.value <= 10.0
    {
      error := None;
      if |courses| == 0 {
        error := Some(NoCourses);
        return;
      }
      var totalPoints, totalCredits := SumCourses(courses);
      SumOfPositive(courses, CourseCredits);
      SgpaBounded(courses);
      finalSgpa := Some(totalPoints / totalCredits);
    }

    /** clearSgpa. */
    method ClearSgpa()
      requires Valid()
      modifies this`courses, this`finalSgpa, this`error
      ensures Valid()
      ensures courses == [] && finalSgpa == None && error == None
    {
      courses := [];
      finalSgpa := None;
      error := None;
    }

    /** deleteCourse: keep the courses with other ids, in order. */
    method DeleteCourse(id: nat)
      requires Valid()
      modifies this`courses, this`finalSgpa
      ensures Valid()
      ensures courses == WithoutCourse(old(courses), id) && finalSgpa == None
    {
      courses := WithoutCourse(courses, id);
      finalSgpa := None;
    }

    /** addSemester: the SGPA must lie in [0, 10], the credits in (0, 50]. */
    method AddSemester(sgpa: Option<real>, credits: Option<real>)
      requires Valid()
      modifies this`semesters, this`finalCgpa, this`error, this`nextId
      ensures Valid()
      ensures sgpa.None? || sgpa.value < 0.0 || sgpa.value > 10.0 ==>
                && semesters == old(semesters) && finalCgpa == old(finalCgpa) && nextId == old(nextId)
                && error == Some(InvalidSgpa)
      ensures sgpa.Some? && 0.0 <= sgpa.value <= 10.0 && (credits.None? || credits.value <= 0.0 || credits.value > 50.0) ==>
                && semesters == old(semesters) && finalCgpa == old(finalCgpa) && nextId == old(nextId)
                && error == Some(InvalidSemesterCredits)
      ensures sgpa.Some? && credits.Some? && ValidSemester(Semester(old(nextId), sgpa.value, credits.value)) ==>
                && semesters == old(semesters) + [Semester(old(nextId), sgpa.value, credits.value)]
                && (forall s :: s in old(semesters) ==> s.id != old(nextId))
                && finalCgpa == None && error == None
    {
      error := None;
      if sgpa.None? || sgpa.value < 0.0 || sgpa.value > 10.0 {
        error := Some(InvalidSgpa);
        return;
      }
      if credits.None? || credits.value <= 0.0 || credits.value > 50.0 {
        error := Some(InvalidSemesterCredits);
        return;
      }
      var newSemester := Semester(nextId, sgpa.value, credits.value);
      nextId := nextId + 1;
      semesters := semesters + [newSemester];
      finalCgpa := None;
    }

    /** calculateCgpa. */
    method CalculateCgpa()
      requires Valid()
      modifies this`finalCgpa, this`error
      ensures Valid()
      ensures semesters == [] ==> error == Some(NoSemesters) && finalCgpa == old(finalCgpa)
      ensures semesters != [] ==>
                && AllCreditsPositive(semesters)
                && error == None && finalCgpa == Some(Cgpa(semesters))
                && 0.0 <= finalCgpa.value <= 10.0
    {
      error := None;
      if |semesters| == 0 {
        error := Some(NoSemesters);
        return;
      }
      var totalWeightedPoints, totalCredits := SumSemesters(semesters);
      CgpaBounded(semesters);
      SumOfPositive(semesters, SemesterCredits);
      finalCgpa := Some(totalWeightedPoints / totalCredits);
    }

    /** clearCgpa. */
    method ClearCgpa()
      requires Valid()
      modifies this`semesters, this`finalCgpa, this`error
      ensures Valid()
      ensures semesters == [] && finalCgpa == None && error == None
    {
      semesters := [];
      finalCgpa := None;
      error := None;
    }

    /** deleteSemester: keep the semesters with other ids, in order. The
        required SGPA is not cleared, as in the component. */
    method DeleteSemester(id: nat)
      requires Valid()
      modifies this`semesters, this`finalCgpa
      ensures Valid()
      ensures semesters == WithoutSemester(old(semesters), id) && finalCgpa == None
    {
      semesters := WithoutSemester(semesters, id);
      finalCgpa := None;
    }

    /** calculateRequiredSgpa: the dream CGPA must lie in (0, 10], this
        semester's credits in (0, 50]. */
    method CalculateRequiredSgpa(dreamCgpa: Option<real>, currentCredits: Option<real>)
      requires Valid()
      modifies this`requiredSgpa, this`error
      ensures Valid()
      ensures dreamCgpa.None? || dreamCgpa.value <= 0.0 || dreamCgpa.value > 10.0 ==>
                requiredSgpa == None && error == Some(InvalidDreamCgpa)
      ensures dreamCgpa.Some? && 0.0 < dreamCgpa.value <= 10.0
              && (currentCredits.None? || currentCredits.value <= 0.0 || currentCredits.value > 50.0) ==>
                requiredSgpa == None && error == Some(InvalidCurrentCredits)
      ensures dreamCgpa.Some? && 0.0 < dreamCgpa.value <= 10.0
              && currentCredits.Some? && 0.0 < currentCredits.value <= 50.0 ==>
                && error == None
                && requiredSgpa == Some(RequiredSgpa(semesters, dreamCgpa.value, currentCredits.value))
    {
      error := None;
      requiredSgpa := None;
      if dreamCgpa.None? || dreamCgpa.value <= 0.0 || dreamCgpa.value > 10.0 {
        error := Some(InvalidDreamCgpa);
        return;
      }
      if currentCredits.None? || currentCredits.value <= 0.0 || currentCredits.value > 50.0 {
        error := Some(InvalidCurrentCredits);
        return;
      }
      var pastWeightedPoints, pastCredits := SumSemesters(semesters);
      var totalCredits := pastCredits + currentCredits.value;
      requiredSgpa := Some(ScoreNeeded(pastWeightedPoints, totalCredits, currentCredits.value, dreamCgpa.value));
    }

    /** addSgpaTargetCourse: a non-blank name and credits in (0, 10]; the new
        course starts unlocked with grade O. */
    method AddSgpaTargetCourse(name: string, credits: Option<real>)
      requires Valid()
      modifies this`targetCourses, this`targetResult, this`error, this`nextId
      ensures Valid()
      ensures IsBlank(name) ==>
                && targetCourses == old(targetCourses) && targetResult == old(targetResult) && nextId == old(nextId)
                && error == Some(MissingCourseName)
      ensures !IsBlank(name) && !(credits.Some? && ValidCourseCredits(credits.value)) ==>
                && targetCourses == old(targetCourses) && targetResult == old(targetResult) && nextId == old(nextId)
                && error == Some(InvalidTargetCourseCredits)
      ensures !IsBlank(name) && credits.Some? && ValidCourseCredits(credits.value) ==>
                && targetCourses == old(targetCourses) + [TargetCourse(old(nextId), name, credits.value, O, false)]
                && (forall c :: c in old(targetCourses) ==> c.id != old(nextId))
                && targetResult == None && error == None
    {
      error := None;
      if IsBlank(name) {
        error := Some(MissingCourseName);
        return;
      }
      if credits.None? || credits.value <= 0.0 || credits.value > 10.0 {
        error := Some(InvalidTargetCourseCredits);
        return;
      }
      var newCourse := TargetCourse(nextId, name, credits.value, O, false);
      nextId := nextId + 1;
      targetCourses := targetCourses + [newCourse];
      targetResult := None;
    }

    /** deleteSgpaTargetCourse. */
    method DeleteSgpaTargetCourse(id: nat)
      requires Valid()
      modifies this`targetCourses, this`targetResult
      ensures Valid()
      ensures targetCourses == WithoutTargetCourse(old(targetCourses), id) && targetResult == None
    {
      targetCourses := WithoutTargetCourse(targetCourses, id);
      targetResult := None;
    }

    /** updateSgpaTargetCourse: set one field of the records with the id. */
    method UpdateSgpaTargetCourse(id: nat, update: FieldUpdate)
      requires Valid()
      modifies this`targetCourses, this`targetResult
      ensures Valid()
      ensures targetCourses == UpdatedTargetCourses(old(targetCourses), id, update) && targetResult == None
    {
      targetCourses := UpdatedTargetCourses(targetCourses, id, update);
      targetResult := None;
      forall c | c in targetCourses
        ensures ValidCourseCredits(c.credits) && !IsBlank(c.name) && c.id < nextId
      {
        var i :| 0 <= i < |targetCourses| && targetCourses[i] == c;
        assert old(targetCourses)[i] in old(targetCourses);
      }
    }

    /** calculateSgpaTarget: the target must lie in (0, 10], the list must be
        non-empty and some credit must be left unlocked. */
    method CalculateSgpaTarget(goal: Option<real>)
      requires Valid()
      modifies this`targetResult, this`error, this`targetGoal
      ensures Valid()
      ensures goal.None? || goal.value <= 0.0 || goal.value > 10.0 ==>
                targetResult == old(targetResult) && error == Some(InvalidTargetSgpa)
      ensures goal.Some? && 0.0 < goal.value <= 10.0 && targetCourses == [] ==>
                targetResult == old(targetResult) && error == Some(NoTargetCourses)
      ensures goal.Some? && 0.0 < goal.value <= 10.0 && targetCourses != [] ==>
                if UnlockedCredits(targetCourses) <= 0.0 then
                  targetResult == None && error == Some(AllLocked)
                else
                  targetResult == Some(TargetResultFor(targetCourses, goal.value)) && error == None
    {
      error := None;
      if goal.None? || goal.value <= 0.0 || goal.value > 10.0 {
        error := Some(InvalidTargetSgpa);
        return;
      }
      if |targetCourses| == 0 {
        error := Some(NoTargetCourses);
        return;
      }
      var totalCredits, lockedCredits, lockedPoints := SumTargetCourses(targetCourses);
      var unlockedCredits := totalCredits - lockedCredits;
      if unlockedCredits <= 0.0 {
        error := Some(AllLocked);
        targetResult := None;
        return;
      }
      var requiredAvgPoint := ScoreNeeded(lockedPoints, totalCredits, unlockedCredits, goal.value);
      targetGoal := goal.value;
      targetResult := Some(TargetResult(requiredAvgPoint, GradeFromPoints(requiredAvgPoint)));
    }

    /** clearSgpaTarget. */
    method ClearSgpaTarget()
      requires Valid()
      modifies this`targetCourses, this`targetResult, this`error
      ensures Valid()
      ensures targetCourses == [] && targetResult == None && error == None
    {
      targetCourses := [];
      targetResult := None;
      error := None;
    }
  }

  /** The forEach of calculateSgpaTarget: total, locked credits and locked
      points. */
  method SumTargetCourses(courses: seq<TargetCourse>) returns (totalCredits: real, lockedCredits: real, lockedPoints: real)
    ensures totalCredits == SumOf(courses, TargetCredits)
    ensures lockedCredits == SumOf(courses, LockedCredits)
    ensures lockedPoints == SumOf(courses, LockedPoints)
  {
    totalCredits, lockedCredits, lockedPoints := 0.0, 0.0, 0.0;
    for i := 0 to |courses|
      invariant totalCredits == SumOf(courses[..i], TargetCredits)
      invariant lockedCredits == SumOf(courses[..i], LockedCredits)
      invariant lockedPoints == SumOf(courses[..i], LockedPoints)
    {
      assert courses[..i + 1][..i] == courses[..i];
      var c := courses[i];
      totalCredits := totalCredits + c.credits;
      if c.isLocked {
        lockedCredits := lockedCredits + c.credits;
        lockedPoints := lockedPoints + GradePoints(c.grade) as real * c.credits;
      }
    }
    assert courses[..|courses|] == courses;
  }
}
