// The marks-to-grade arithmetic of the grade predictor: a course total out of
// 100 is the internal mark (out of 60) plus the end-semester exam mark (out of
// 75) scaled to 40; a band table turns the total into a grade, and the
// conversion is inverted to find the exam mark each grade needs.
module GradePredictor {
  import opened Util

  /** The grades of this table; Pass is a band of its own, RA does not exist. */
  datatype BandGrade = O | APlus | A | BPlus | B | C | Pass | Fail

  datatype Band = Band(grade: BandGrade, min: int, max: int)

  /** GRADE_MIN_MARKS, best band first. */
  const Bands: seq<Band> := [
    Band(O, 91, 100),
    Band(APlus, 81, 90),
    Band(A, 71, 80),
    Band(BPlus, 61, 70),
    Band(B, 55, 60),
    Band(C, 51, 54),
    Band(Pass, 50, 50)
  ]

  /** Index of the Pass band, the last and lowest one. */
  const PassIndex: nat := 6

  /** Lowest total that is not a Fail. */
  const MinPassMarks: int := 50

  /** Position of a grade in the order of merit, Fail lowest. */
  function Rank(g: BandGrade): nat
  {
    match g
    case Fail => 0
    case Pass => 1
    case C => 2
    case B => 3
    case BPlus => 4
    case A => 5
    case APlus => 6
    case O => 7
  }

  /** Band i of the table, spelled out so that proofs can split on i. */
  lemma BandAt(i: nat)
    requires i < |Bands|
    ensures i == 0 ==> Bands[i] == Band(O, 91, 100)
    ensures i == 1 ==> Bands[i] == Band(APlus, 81, 90)
    ensures i == 2 ==> Bands[i] == Band(A, 71, 80)
    ensures i == 3 ==> Bands[i] == Band(BPlus, 61, 70)
    ensures i == 4 ==> Bands[i] == Band(B, 55, 60)
    ensures i == 5 ==> Bands[i] == Band(C, 51, 54)
    ensures i == 6 ==> Bands[i] == Band(Pass, 50, 50)
  {
  }

  /** The table is sorted best first, its bands tile 50..100 without gaps and
      each band's grade ranks by its position. */
  lemma BandsWellFormed(i: nat)
    requires i < |Bands|
    ensures Bands[0].max == 100 && Bands[|Bands| - 1].min == MinPassMarks
    ensures Bands[i].min <= Bands[i].max
    ensures i > 0 ==> Bands[i].min < Bands[i - 1].min && Bands[i].max == Bands[i - 1].min - 1
    ensures Rank(Bands[i].grade) == |Bands| - i
    ensures (Bands[i].grade == Pass) == (i == PassIndex)
  {
    BandAt(i);
    if i > 0 {
      BandAt(i - 1);
    }
  }

  /** Later bands have lower minimums. */
  lemma {:induction false} BandsDescending(i: nat, j: nat)
    requires i <= j < |Bands|
    ensures Bands[j].min <= Bands[i].min
    ensures i < j ==> Bands[j].min < Bands[i].min
    decreases j - i
  {
    if i < j {
      BandsWellFormed(j);
      BandsDescending(i, j - 1);
    }
  }

  /** convertExternalTo40: an exam mark out of 75 as a contribution out of 40. */
  function ConvertExternalTo40(externalMarks: real): (r: real)
    ensures externalMarks == 0.0 ==> r == 0.0
    ensures externalMarks == 75.0 ==> r == 40.0
    ensures 0.0 <= externalMarks <= 75.0 ==> 0.0 <= r <= 40.0
  {
    externalMarks / 75.0 * 40.0
  }

  lemma ConvertStrictlyIncreasing(x: real, y: real)
    requires x < y
    ensures ConvertExternalTo40(x) < ConvertExternalTo40(y)
  {
  }

  /** The grade scan from band i onwards: the first band whose minimum the
      total reaches, else Fail. */
  function GradeFrom(total: real, i: nat): BandGrade
    requires i <= |Bands|
    decreases |Bands| - i
  {
    if i == |Bands| then Fail
    else if total >= Bands[i].min as real then Bands[i].grade
    else GradeFrom(total, i + 1)
  }

  /** getGrade, as a specification. */
  function GradeForTotal(total: real): BandGrade
  {
    GradeFrom(total, 0)
  }

  /** getGrade: an early-return scan of the band table. */
  method GetGrade(totalMarks: real) returns (g: BandGrade)
    ensures g == GradeForTotal(totalMarks)
  {
    for i := 0 to |Bands|
      invariant GradeFrom(totalMarks, i) == GradeForTotal(totalMarks)
    {
      if totalMarks >= Bands[i].min as real {
        return Bands[i].grade;
      }
    }
    return Fail;
  }

  lemma {:induction false} GradeFromIsBand(total: real, i: nat, k: nat)
    requires i <= k < |Bands|
    requires Bands[k].min as real <= total
    requires k == 0 || total < Bands[k - 1].min as real
    ensures GradeFrom(total, i) == Bands[k].grade
    decreases k - i
  {
    if i < k {
      BandsDescending(i, k - 1);
      GradeFromIsBand(total, i + 1, k);
    }
  }

  /** A total at least band k's minimum and below the minimum of the band
      above gets band k's grade. */
  lemma GradeForTotalIsBand(total: real, k: nat)
    requires k < |Bands|
    requires Bands[k].min as real <= total
    requires k == 0 || total < Bands[k - 1].min as real
    ensures GradeForTotal(total) == Bands[k].grade
  {
    GradeFromIsBand(total, 0, k);
  }

  lemma {:induction false} GradeFromBelowAll(total: real, i: nat)
    requires i <= |Bands|
    requires total < MinPassMarks as real
    ensures GradeFrom(total, i) == Fail
    decreases |Bands| - i
  {
    if i < |Bands| {
      BandsDescending(i, |Bands| - 1);
      GradeFromBelowAll(total, i + 1);
    }
  }

  /** A total of at least 50 is never a Fail; one below 50 always is. */
  lemma GradeForTotalFails(total: real)
    ensures GradeForTotal(total) == Fail <==> total < MinPassMarks as real
  {
    if total < MinPassMarks as real {
      GradeFromBelowAll(total, 0);
    } else {
      var k := BandOfTotal(total);
      GradeForTotalIsBand(total, k);
      BandsWellFormed(k);
    }
  }

  /** Index of the band that holds a total of at least 50. */
  function BandOfTotal(total: real): (k: nat)
    requires total >= MinPassMarks as real
    ensures k < |Bands|
    ensures Bands[k].min as real <= total
    ensures k == 0 || total < Bands[k - 1].min as real
    ensures forall j :: 0 <= j < |Bands| && Bands[j].min as real <= total && (j == 0 || total < Bands[j - 1].min as real) ==> j == k
  {
    if total >= 91.0 then 0
    else if total >= 81.0 then 1
    else if total >= 71.0 then 2
    else if total >= 61.0 then 3
    else if total >= 55.0 then 4
    else if total >= 51.0 then 5
    else 6
  }

  /** For every whole-number total from 50 to 100 the grade returned is that of
      the band whose printed range [min, max] holds the total. */
  lemma GradeForIntegerTotal(total: int)
    requires MinPassMarks <= total <= 100
    ensures exists k :: 0 <= k < |Bands| && Bands[k].min <= total <= Bands[k].max
                        && GradeForTotal(total as real) == Bands[k].grade
  {
    var k := BandOfTotal(total as real);
    GradeForTotalIsBand(total as real, k);
    BandsWellFormed(k);
  }

  lemma {:induction false} GradeFromRankBound(total: real, i: nat)
    requires i <= |Bands|
    ensures Rank(GradeFrom(total, i)) <= |Bands| - i
    decreases |Bands| - i
  {
    if i < |Bands| {
      BandsWellFormed(i);
      GradeFromRankBound(total, i + 1);
    }
  }

  lemma {:induction false} GradeFromMonotone(t1: real, t2: real, i: nat)
    requires t1 <= t2
    requires i <= |Bands|
    ensures Rank(GradeFrom(t1, i)) <= Rank(GradeFrom(t2, i))
    decreases |Bands| - i
  {
    if i < |Bands| {
      if t2 >= Bands[i].min as real {
        BandsWellFormed(i);
        GradeFromRankBound(t1, i);
      } else {
        GradeFromMonotone(t1, t2, i + 1);
      }
    }
  }

  /** A higher total never gives a lower grade. */
  lemma GradeForTotalMonotone(t1: real, t2: real)
    requires t1 <= t2
    ensures Rank(GradeForTotal(t1)) <= Rank(GradeForTotal(t2))
  {
    GradeFromMonotone(t1, t2, 0);
  }

  /** calculateExternalNeeded: the exam mark out of 75 that lifts the internal
      mark to the target total; 0 when the internal mark already reaches it. */
  function ExternalNeeded(internal: real, targetTotal: real): (e: real)
    ensures e >= 0.0
    ensures targetTotal <= internal ==> e == 0.0
    ensures targetTotal > internal ==> e > 0.0 && internal + ConvertExternalTo40(e) == targetTotal
  {
    var neededFor40 := targetTotal - internal;
    if neededFor40 <= 0.0 then 0.0 else neededFor40 / 40.0 * 75.0
  }

  /** The whole exam mark a target total needs: Math.ceil of ExternalNeeded. */
  function MarksNeeded(internal: real, targetTotal: real): int
  {
    Ceil(ExternalNeeded(internal, targetTotal))
  }

  /** The rounded-up mark is the least whole exam mark that reaches the
      target: a non-negative mark m reaches it exactly when m is at least
      MarksNeeded. */
  lemma MarksNeededIsLeast(internal: real, targetTotal: real, m: int)
    requires m >= 0
    ensures MarksNeeded(internal, targetTotal) >= 0
    ensures internal + ConvertExternalTo40(m as real) >= targetTotal
            <==> m >= MarksNeeded(internal, targetTotal)
  {
    var e := ExternalNeeded(internal, targetTotal);
    if targetTotal > internal {
      if m as real > e {
        ConvertStrictlyIncreasing(e, m as real);
      } else if m as real < e {
        ConvertStrictlyIncreasing(m as real, e);
      }
    }
  }

  /** A higher target never needs fewer marks. */
  lemma MarksNeededMonotone(internal: real, t1: real, t2: real)
    requires t1 <= t2
    ensures MarksNeeded(internal, t1) <= MarksNeeded(internal, t2)
  {
  }

  // ---------------------------------------------------------------------------
  // The grade that is certain whatever the exam mark.

  /** As written, a "Guaranteed ... or better" row names the grade of the best
      total reachable (internal + 40 marks). */
  function GuaranteedGradeAsWritten(internal: real): BandGrade
  {
    GradeForTotal(internal + ConvertExternalTo40(75.0))
  }

  /** With 55 internal marks the B row is guaranteed, yet the as-written text
      promises an O, which an exam mark of 0 does not give. */
  lemma GuaranteedGradeAsWrittenOverclaims()
    ensures ExternalNeeded(55.0, 55.0) == 0.0
    ensures GuaranteedGradeAsWritten(55.0) == O
    ensures NeededRow(55.0, Bands[4]) == Row(B, 55, 60, Guaranteed(O))
    ensures GradeForTotal(55.0 + ConvertExternalTo40(0.0)) == B
  {
    BandAt(0);
    GradeForTotalIsBand(95.0, 0);
    BandAt(3);
    BandAt(4);
    GradeForTotalIsBand(55.0, 4);
  }

  /** The grade obtained with an exam mark of 0: the grade that is actually
      guaranteed. */
  function GuaranteedGrade(internal: real): BandGrade
  {
    GradeForTotal(internal)
  }

  /** Every exam mark from 0 to 75 gives at least the guaranteed grade, and
      the mark 0 gives exactly that grade, so no better grade is certain. */
  lemma GuaranteedGradeIsCertain(internal: real, m: real)
    requires 0.0 <= m <= 75.0
    ensures Rank(GuaranteedGrade(internal)) <= Rank(GradeForTotal(internal + ConvertExternalTo40(m)))
    ensures GradeForTotal(internal + ConvertExternalTo40(0.0)) == GuaranteedGrade(internal)
  {
    GradeForTotalMonotone(internal, internal + ConvertExternalTo40(m));
  }

  // ---------------------------------------------------------------------------
  // calculatePredictions

  /** The "needed" column: out of reach, already certain, at least so many
      marks, or (Fail row) below so many marks. */
  datatype Needed = Impossible | Guaranteed(grade: BandGrade) | AtLeast(marks: int) | Below(marks: int)

  datatype Row = Row(grade: BandGrade, min: int, max: int, needed: Needed)

  datatype DirectPrediction = DirectPrediction(total: real, grade: BandGrade, externalConverted: real, semExam: real)

  datatype Prediction = Prediction(internal: real, neededMarks: seq<Row>, direct: Option<DirectPrediction>)

  datatype PredictOutcome = InvalidInternal | Predicted(prediction: Prediction)

  /** The row of one band in the reverse-prediction table. */
  function NeededRow(internal: real, band: Band): Row
  {
    var requiredExternal := ExternalNeeded(internal, band.min as real);
    var maxPossibleTotal := internal + ConvertExternalTo40(75.0);
    var needed :=
      if maxPossibleTotal < band.min as real && band.grade != Pass then Impossible
      else if requiredExternal <= 0.0 then Guaranteed(GuaranteedGradeAsWritten(internal))
      else AtLeast(Ceil(requiredExternal));
    Row(band.grade, band.min, band.max, needed)
  }

  /** The row appended last: fewer marks than needed for 50 is a Fail. */
  function FailRow(internal: real): Row
  {
    Row(Fail, 0, 49, Below(MarksNeeded(internal, MinPassMarks as real)))
  }

  predicate NotPassRow(r: Row)
  {
    r.grade != Pass
  }

  /** The table shown: every band but Pass in table order, then the Fail row. */
  function PredictionTable(internal: real): seq<Row>
  {
    Filter(seq(|Bands|, i requires 0 <= i < |Bands| => NeededRow(internal, Bands[i])), NotPassRow)
      + [FailRow(internal)]
  }

  /** The direct prediction for an exam mark, present only for a mark in [0, 75]. */
  function Direct(internal: real, semExamMarks: Option<real>): Option<DirectPrediction>
  {
    if semExamMarks.Some? && 0.0 <= semExamMarks.value <= 75.0 then
      var converted := ConvertExternalTo40(semExamMarks.value);
      var total := internal + converted;
      Some(DirectPrediction(total, GradeForTotal(total), converted, semExamMarks.value))
    else
      None
  }

  /** The table has no Pass row: the six other bands in order, then Fail. */
  lemma PredictionTableShape(internal: real)
    ensures |PredictionTable(internal)| == |Bands|
    ensures forall i :: 0 <= i < PassIndex ==> PredictionTable(internal)[i] == NeededRow(internal, Bands[i])
    ensures PredictionTable(internal)[PassIndex] == FailRow(internal)
  {
    var all := seq(|Bands|, i requires 0 <= i < |Bands| => NeededRow(internal, Bands[i]));
    forall i | 0 <= i < PassIndex
      ensures NotPassRow(all[i])
    {
      BandsWellFormed(i);
    }
    BandAt(PassIndex);
    FilterDropsLast(all, NotPassRow);
  }

  /** A band's row says "Impossible" exactly when even 75 marks fall short. */
  lemma NeededRowImpossibleIff(internal: real, i: nat)
    requires i < PassIndex
    ensures NeededRow(internal, Bands[i]).needed == Impossible
            <==> internal + 40.0 < Bands[i].min as real
  {
    BandsWellFormed(i);
  }

  /** A band's row says "Guaranteed" exactly when the internal mark alone
      reaches the band, and the grade it names is then certain. */
  lemma NeededRowGuaranteedIff(internal: real, i: nat)
    requires i < PassIndex
    ensures NeededRow(internal, Bands[i]).needed.Guaranteed?
            <==> internal >= Bands[i].min as real
    ensures NeededRow(internal, Bands[i]).needed.Guaranteed? ==>
              && NeededRow(internal, Bands[i]).needed.grade == GradeForTotal(internal + ConvertExternalTo40(75.0))
              && Rank(NeededRow(internal, Bands[i]).needed.grade) >= Rank(Bands[i].grade)
              && Rank(NeededRow(internal, Bands[i]).needed.grade) >= Rank(GuaranteedGrade(internal))
  {
    BandsWellFormed(i);
    if internal >= Bands[i].min as real {
      GradeForTotalMonotone(Bands[i].min as real, internal + ConvertExternalTo40(75.0));
      GradeForTotalMonotone(internal, internal + ConvertExternalTo40(75.0));
      GradeForTotalIsBand(Bands[i].min as real, i);
    }
  }

  /** An "at least m marks" row names the least whole exam mark, between 1
      and 75, that reaches the band. */
  lemma NeededRowAtLeast(internal: real, i: nat)
    requires i < PassIndex
    requires NeededRow(internal, Bands[i]).needed.AtLeast?
    ensures var m := NeededRow(internal, Bands[i]).needed.marks;
            && 1 <= m <= 75
            && internal + ConvertExternalTo40(m as real) >= Bands[i].min as real
            && internal + ConvertExternalTo40((m - 1) as real) < Bands[i].min as real
  {
    BandsWellFormed(i);
    var m := NeededRow(internal, Bands[i]).needed.marks;
    MarksNeededIsLeast(internal, Bands[i].min as real, m);
    MarksNeededIsLeast(internal, Bands[i].min as real, m - 1);
  }

  /** calculatePredictions: validate the internal mark, build the table and,
      when an exam mark in [0, 75] is given, the direct prediction. */
  method CalculatePredictions(internalMarks: Option<real>, semExamMarks: Option<real>)
    returns (outcome: PredictOutcome)
    ensures outcome == InvalidInternal
            <==> internalMarks.None? || internalMarks.value < 0.0 || internalMarks.value > 60.0
    ensures outcome.Predicted? ==>
              && outcome.prediction.internal == internalMarks.value
              && outcome.prediction.neededMarks == PredictionTable(internalMarks.value)
              && outcome.prediction.direct == Direct(internalMarks.value, semExamMarks)
  {
    if internalMarks.None? || internalMarks.value < 0.0 || internalMarks.value > 60.0 {
      return InvalidInternal;
    }
    var internal := internalMarks.value;

    var mapped: seq<Row> := [];
    for i := 0 to |Bands|
      invariant mapped == seq(i, j requires 0 <= j < i => NeededRow(internal, Bands[j]))
    {
      mapped := mapped + [NeededRow(internal, Bands[i])];
    }
    var neededMarks := Filter(mapped, NotPassRow);
    neededMarks := neededMarks + [FailRow(internal)];

    var directPrediction: Option<DirectPrediction> := None;
    if semExamMarks.Some? && 0.0 <= semExamMarks.value <= 75.0 {
      var semExam := semExamMarks.value;
      var externalConverted := ConvertExternalTo40(semExam);
      var total := internal + externalConverted;
      var grade := GetGrade(total);
      directPrediction := Some(DirectPrediction(total, grade, externalConverted, semExam));
    }
    return Predicted(Prediction(internal, neededMarks, directPrediction));
  }

  /** Worked example: 55 internal marks need 67.5, so 68, exam marks for an O. */
  lemma ExampleFiftyFiveInternal()
    ensures ExternalNeeded(55.0, 91.0) == 67.5
    ensures MarksNeeded(55.0, 91.0) == 68
  {
  }
}
