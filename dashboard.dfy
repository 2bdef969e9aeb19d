// The dashboard's statistics over the calculator's courses and semesters:
// the grade histogram with RA folded into Fail, the overall CGPA, the
// first-versus-last trend, the most common grade and the two chart series.
module Dashboard {
  import opened Util
  import opened GpaCalculator

  /** The histogram's buckets in the order the dashboard lists them. */
  const BucketGrades: seq<Grade> := [O, APlus, A, BPlus, B, C, Fail]

  /** The bucket a course's grade counts in: RA counts as Fail. */
  function BucketOf(g: Grade): (k: nat)
    ensures k < |BucketGrades|
    ensures g != RA ==> BucketGrades[k] == g
    ensures g == RA ==> BucketGrades[k] == Fail
  {
    match g
    case O => 0
    case APlus => 1
    case A => 2
    case BPlus => 3
    case B => 4
    case C => 5
    case Fail => 6
    case RA => 6
  }

  /** Each bucket is named by its own grade. */
  lemma BucketOfBucketGrade(k: nat)
    requires k < |BucketGrades|
    ensures BucketOf(BucketGrades[k]) == k
  {
  }

  /** How many courses fall in bucket k. */
  function CountInBucket(courses: seq<Course>, k: nat): nat
  {
    if courses == [] then 0
    else CountInBucket(courses[..|courses| - 1], k) + if BucketOf(courses[|courses| - 1].grade) == k then 1 else 0
  }

  /** The histogram gradeCounts describes, bucket by bucket. */
  function Histogram(courses: seq<Course>): (h: seq<nat>)
    ensures |h| == |BucketGrades|
  {
    seq(|BucketGrades|, k requires 0 <= k < |BucketGrades| => CountInBucket(courses, k))
  }

  function Total(counts: seq<nat>): nat
  {
    if counts == [] then 0 else Total(counts[..|counts| - 1]) + counts[|counts| - 1]
  }

  /** Adding one to one entry adds one to the total. */
  lemma {:induction false} TotalIncrement(counts: seq<nat>, k: nat)
    requires k < |counts|
    ensures Total(counts[k := counts[k] + 1]) == Total(counts) + 1
  {
    var n := |counts| - 1;
    var bumped := counts[k := counts[k] + 1];
    assert bumped[..n] == if k < n then counts[..n][k := counts[k] + 1] else counts[..n];
    if k < n {
      TotalIncrement(counts[..n], k);
    }
  }

  /** One more course adds one to its own bucket and nothing else. */
  lemma HistogramStep(courses: seq<Course>, c: Course)
    ensures Histogram(courses + [c]) == Histogram(courses)[BucketOf(c.grade) := Histogram(courses)[BucketOf(c.grade)] + 1]
  {
    assert (courses + [c])[..|courses|] == courses;
  }

  /** Every course is counted exactly once: the buckets sum to the number of
      courses. */
  lemma {:induction false} HistogramTotal(courses: seq<Course>)
    ensures Total(Histogram(courses)) == |courses|
  {
    if courses != [] {
      var n := |courses| - 1;
      var c := courses[n];
      assert courses == courses[..n] + [c];
      HistogramTotal(courses[..n]);
      HistogramStep(courses[..n], c);
      TotalIncrement(Histogram(courses[..n]), BucketOf(c.grade));
    } else {
      TotalOfZeros(Histogram(courses));
    }
  }

  lemma {:induction false} TotalOfZeros(counts: seq<nat>)
    requires forall k :: 0 <= k < |counts| ==> counts[k] == 0
    ensures Total(counts) == 0
  {
    if counts != [] {
      TotalOfZeros(counts[..|counts| - 1]);
    }
  }

  /** A list of counts with a positive total has a positive entry. */
  lemma {:induction false} PositiveTotalHasPositiveEntry(counts: seq<nat>)
    requires Total(counts) > 0
    ensures exists k :: 0 <= k < |counts| && counts[k] > 0
  {
    var n := |counts| - 1;
    if counts[n] == 0 {
      PositiveTotalHasPositiveEntry(counts[..n]);
      var k :| 0 <= k < n && counts[..n][k] > 0;
      assert counts[k] > 0;
    }
  }

  /** The forEach that fills gradeCounts, one increment per course. */
  method GradeCounts(courses: seq<Course>) returns (gradeCounts: seq<nat>)
    ensures gradeCounts == Histogram(courses)
    ensures Total(gradeCounts) == |courses|
  {
    gradeCounts := [0, 0, 0, 0, 0, 0, 0];
    assert gradeCounts == Histogram([]);
    for i := 0 to |courses|
      invariant gradeCounts == Histogram(courses[..i])
    {
      var k := BucketOf(courses[i].grade);
      HistogramStep(courses[..i], courses[i]);
      assert courses[..i + 1] == courses[..i] + [courses[i]];
      gradeCounts := gradeCounts[k := gradeCounts[k] + 1];
    }
    assert courses[..|courses|] == courses;
    HistogramTotal(courses);
  }

  datatype Trend = Up | Down | Flat

  /** The overall CGPA and the trend. With no semesters there is no CGPA; the
      trend compares the last semester's SGPA with the first's. */
  method OverallStats(semesters: seq<Semester>) returns (overallCgpa: Option<real>, gpaTrend: Trend)
    requires AllCreditsPositive(semesters)
    ensures semesters == [] <==> overallCgpa == None
    ensures semesters != [] ==> overallCgpa == Some(Cgpa(semesters))
    ensures gpaTrend == Up <==> |semesters| > 1 && semesters[|semesters| - 1].sgpa > semesters[0].sgpa
    ensures gpaTrend == Down <==> |semesters| > 1 && semesters[|semesters| - 1].sgpa < semesters[0].sgpa
    ensures gpaTrend == Flat <==> |semesters| <= 1 || semesters[|semesters| - 1].sgpa == semesters[0].sgpa
  {
    overallCgpa := None;
    gpaTrend := Flat;
    if |semesters| > 0 {
      var totalWeightedPoints, totalCredits := SumSemesters(semesters);
      SumOfPositive(semesters, SemesterCredits);
      overallCgpa := Some(totalWeightedPoints / totalCredits);
      if |semesters| > 1 {
        var firstGpa := semesters[0].sgpa;
        var lastGpa := semesters[|semesters| - 1].sgpa;
        if lastGpa > firstGpa {
          gpaTrend := Up;
        }
        if lastGpa < firstGpa {
          gpaTrend := Down;
        }
      }
    }
  }

  /** Bucket k holds the first strictly largest positive count. */
  predicate IsFirstMax(counts: seq<nat>, k: nat)
    requires |counts| == |BucketGrades|
  {
    && k < |counts|
    && counts[k] > 0
    && (forall j :: 0 <= j < |counts| ==> counts[j] <= counts[k])
    && (forall j :: 0 <= j < k ==> counts[j] < counts[k])
  }

  /** The scan for the most common grade: a strictly larger count replaces the
      current choice, so ties go to the earlier bucket. */
  method MostCommonGrade(courseCount: nat, gradeCounts: seq<nat>) returns (mostCommon: Option<Grade>)
    requires |gradeCounts| == |BucketGrades|
    ensures courseCount == 0 ==> mostCommon == None
    ensures courseCount > 0 ==> (mostCommon == None <==> forall k :: 0 <= k < |gradeCounts| ==> gradeCounts[k] == 0)
    ensures mostCommon.Some? ==> mostCommon.value != RA && IsFirstMax(gradeCounts, BucketOf(mostCommon.value))
  {
    mostCommon := None;
    if courseCount > 0 {
      var maxCount: nat := 0;
      for k := 0 to |BucketGrades|
        invariant mostCommon.None? <==> maxCount == 0
        invariant forall j :: 0 <= j < k ==> gradeCounts[j] <= maxCount
        invariant mostCommon.Some? ==>
                    && mostCommon.value != RA
                    && BucketOf(mostCommon.value) < k
                    && gradeCounts[BucketOf(mostCommon.value)] == maxCount
                    && forall j :: 0 <= j < BucketOf(mostCommon.value) ==> gradeCounts[j] < maxCount
      {
        if gradeCounts[k] > maxCount {
          maxCount := gradeCounts[k];
          BucketOfBucketGrade(k);
          mostCommon := Some(BucketGrades[k]);
        }
      }
    }
  }

  datatype BarChartData = BarChartData(labels: seq<Grade>, data: seq<nat>)

  /** A bar chart shows the counts: labels and bars line up one to one, every
      bar is the positive count of its label's bucket, every bucket with a
      positive count has a label, and the labels keep bucket order. */
  predicate ShowsCounts(gradeCounts: seq<nat>, labels: seq<Grade>, data: seq<nat>)
    requires |gradeCounts| == |BucketGrades|
  {
    && |labels| == |data|
    && (forall i :: 0 <= i < |data| ==>
          data[i] > 0 && labels[i] != RA && data[i] == gradeCounts[BucketOf(labels[i])])
    && (forall k :: 0 <= k < |BucketGrades| && gradeCounts[k] > 0 ==> BucketGrades[k] in labels)
    && (forall i, j :: 0 <= i < j < |labels| ==> BucketOf(labels[i]) < BucketOf(labels[j]))
  }

  /** The bar chart: the labels and the counts are filtered separately, yet
      line up one to one and list exactly the buckets with a positive count. */
  function BarChart(gradeCounts: seq<nat>): (chart: BarChartData)
    requires |gradeCounts| == |BucketGrades|
    ensures ShowsCounts(gradeCounts, chart.labels, chart.data)
  {
    var shownGrade := (g: Grade) => gradeCounts[BucketOf(g)] > 0;
    var shownCount := (count: nat) => count > 0;
    BarSeriesAligned(gradeCounts, shownGrade, shownCount);
    BarChartData(Filter(BucketGrades, shownGrade), Filter(gradeCounts, shownCount))
  }

  lemma BarSeriesAligned(gradeCounts: seq<nat>, shownGrade: Grade -> bool, shownCount: nat -> bool)
    requires |gradeCounts| == |BucketGrades|
    requires forall g :: shownGrade(g) == (gradeCounts[BucketOf(g)] > 0)
    requires forall count :: shownCount(count) == (count > 0)
    ensures ShowsCounts(gradeCounts, Filter(BucketGrades, shownGrade), Filter(gradeCounts, shownCount))
  {
    BarEntriesMatch(gradeCounts, shownGrade, shownCount);
    BarLabelsCover(gradeCounts, shownGrade);
    BucketLabelsOrdered(shownGrade);
  }

  /** Every bucket with a positive count keeps its label. */
  lemma BarLabelsCover(gradeCounts: seq<nat>, shownGrade: Grade -> bool)
    requires |gradeCounts| == |BucketGrades|
    requires forall g :: shownGrade(g) == (gradeCounts[BucketOf(g)] > 0)
    ensures forall k :: 0 <= k < |BucketGrades| && gradeCounts[k] > 0 ==> BucketGrades[k] in Filter(BucketGrades, shownGrade)
  {
    forall k | 0 <= k < |BucketGrades| && gradeCounts[k] > 0
      ensures BucketGrades[k] in Filter(BucketGrades, shownGrade)
    {
      BucketOfBucketGrade(k);
    }
  }

  /** The separately filtered labels and counts line up entry by entry. */
  lemma BarEntriesMatch(gradeCounts: seq<nat>, shownGrade: Grade -> bool, shownCount: nat -> bool)
    requires |gradeCounts| == |BucketGrades|
    requires forall g :: shownGrade(g) == (gradeCounts[BucketOf(g)] > 0)
    requires forall count :: shownCount(count) == (count > 0)
    ensures var labels, data := Filter(BucketGrades, shownGrade), Filter(gradeCounts, shownCount);
            && |labels| == |data|
            && forall i :: 0 <= i < |data| ==>
                 data[i] > 0 && labels[i] != RA && data[i] == gradeCounts[BucketOf(labels[i])]
  {
    var labels, data := Filter(BucketGrades, shownGrade), Filter(gradeCounts, shownCount);
    forall k | 0 <= k < |BucketGrades|
      ensures shownGrade(BucketGrades[k]) <==> shownCount(gradeCounts[k])
    {
      BucketOfBucketGrade(k);
    }
    FilterParallel(BucketGrades, gradeCounts, shownGrade, shownCount);
    forall i | 0 <= i < |data|
      ensures data[i] > 0 && labels[i] != RA && data[i] == gradeCounts[BucketOf(labels[i])]
    {
      var j :| 0 <= j < |BucketGrades| && labels[i] == BucketGrades[j] && data[i] == gradeCounts[j];
      BucketOfBucketGrade(j);
      assert shownCount(data[i]);
    }
  }

  /** Whatever buckets a filter keeps, they stay in bucket order. */
  lemma BucketLabelsOrdered(keep: Grade -> bool)
    ensures var labels := Filter(BucketGrades, keep);
            forall i, j :: 0 <= i < j < |labels| ==> BucketOf(labels[i]) < BucketOf(labels[j])
  {
    forall i, j | 0 <= i < j < |BucketGrades|
      ensures BucketOf(BucketGrades[i]) < BucketOf(BucketGrades[j])
    {
      BucketOfBucketGrade(i);
      BucketOfBucketGrade(j);
    }
    FilterKeepsOrder(BucketGrades, keep, BucketOf);
  }

  datatype LineChartData = LineChartData(labels: seq<nat>, data: seq<real>)

  /** The line chart: semester i (from 1) against its SGPA, in list order. */
  function LineChart(semesters: seq<Semester>): (chart: LineChartData)
    ensures |chart.labels| == |semesters| && |chart.data| == |semesters|
    ensures forall i :: 0 <= i < |semesters| ==> chart.labels[i] == i + 1 && chart.data[i] == semesters[i].sgpa
  {
    LineChartData(seq(|semesters|, i requires 0 <= i < |semesters| => i + 1),
                  seq(|semesters|, i requires 0 <= i < |semesters| => semesters[i].sgpa))
  }

  datatype DashboardView = DashboardView(
    line: LineChartData,
    bar: BarChartData,
    overallCgpa: Option<real>,
    gpaTrend: Trend,
    mostCommonGrade: Option<Grade>)

  /** Everything the dashboard derives from its two props. A most common grade
      is shown exactly when there are courses. */
  method Render(courses: seq<Course>, semesters: seq<Semester>) returns (view: DashboardView)
    requires AllCreditsPositive(semesters)
    ensures view.line == LineChart(semesters)
    ensures view.bar == BarChart(Histogram(courses))
    ensures semesters == [] <==> view.overallCgpa == None
    ensures semesters != [] ==> view.overallCgpa == Some(Cgpa(semesters))
    ensures view.gpaTrend == Up <==> |semesters| > 1 && semesters[|semesters| - 1].sgpa > semesters[0].sgpa
    ensures view.gpaTrend == Down <==> |semesters| > 1 && semesters[|semesters| - 1].sgpa < semesters[0].sgpa
    ensures courses == [] <==> view.mostCommonGrade == None
    ensures view.mostCommonGrade.Some? ==>
              view.mostCommonGrade.value != RA && IsFirstMax(Histogram(courses), BucketOf(view.mostCommonGrade.value))
  {
    var gradeCounts := GradeCounts(courses);
    var overallCgpa, gpaTrend := OverallStats(semesters);
    var mostCommon := MostCommonGrade(|courses|, gradeCounts);
    if courses != [] {
      PositiveTotalHasPositiveEntry(gradeCounts);
    }
    view := DashboardView(LineChart(semesters), BarChart(gradeCounts), overallCgpa, gpaTrend, mostCommon);
  }
}
