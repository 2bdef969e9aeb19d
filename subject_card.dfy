// The target-grade ranges of a subject card: for each band, the whole exam
// marks (out of 75) that land the subject's total in that band, computed from
// the best band down with the lower bound of the band above carried along.
module SubjectCard {
  import opened Util
  import opened GradePredictor

  /** What a card row says: the band is out of reach, is certain, needs an
      exam mark in [lo, hi]; or, for the Fail row, failing is impossible or
      happens at `marks` or fewer. */
  datatype Target =
    | Unreachable
    | Assured(grade: BandGrade)
    | MarkRange(lo: int, hi: int)
    | CannotFail
    | FailsAtOrBelow(marks: int)

  datatype CardRow = CardRow(grade: BandGrade, target: Target)

  /** Least whole exam mark that reaches band i. */
  function MinNeeded(internal: real, i: nat): int
    requires i < |Bands|
  {
    MarksNeeded(internal, Bands[i].min as real)
  }

  /** The carried minMarkForGradeAbove when band i is reached: 76 before the
      first band, then the previous band's MinNeeded. */
  function MarkForGradeAbove(internal: real, i: nat): int
    requires i <= |Bands|
  {
    if i == 0 then 76 else MinNeeded(internal, i - 1)
  }

  /** The row of band i. */
  function BandTarget(internal: real, i: nat): Target
    requires i < |Bands|
  {
    var c := MinNeeded(internal, i);
    var above := MarkForGradeAbove(internal, i);
    var target :=
      if c > 75 then Unreachable
      else
        var hi := if above > 75 then 75 else above - 1;
        if c > hi then Assured(GuaranteedGradeAsWritten(internal)) else MarkRange(c, hi);
    if Bands[i].grade == O && c <= 75 then MarkRange(if c < 0 then 0 else c, 75) else target
  }

  /** The Fail row. */
  function FailTarget(internal: real): Target
  {
    var minPassNeeded := MarksNeeded(internal, MinPassMarks as real);
    if minPassNeeded <= 0 then CannotFail else FailsAtOrBelow(minPassNeeded - 1)
  }

  predicate NotPassCard(r: CardRow)
  {
    r.grade != Pass
  }

  /** The rows shown: one per band in table order, then Fail, with Pass dropped. */
  function CardTable(internal: real): seq<CardRow>
  {
    Filter(seq(|Bands|, i requires 0 <= i < |Bands| => CardRow(Bands[i].grade, BandTarget(internal, i)))
             + [CardRow(Fail, FailTarget(internal))], NotPassCard)
  }

  /** The effect that builds the card: a loop over the bands carrying
      minMarkForGradeAbove, then the Fail row, then the Pass row removed. */
  method TargetGrades(internal: real) returns (targetGrades: seq<CardRow>)
    ensures targetGrades == CardTable(internal)
  {
    var neededMarks: seq<CardRow> := [];
    var minMarkForGradeAbove := 76;
    for i := 0 to |Bands|
      invariant neededMarks == seq(i, j requires 0 <= j < i => CardRow(Bands[j].grade, BandTarget(internal, j)))
      invariant minMarkForGradeAbove == MarkForGradeAbove(internal, i)
    {
      var band := Bands[i];
      var minNeededForThisGrade := Ceil(ExternalNeeded(internal, band.min as real));
      var target: Target;
      if minNeededForThisGrade > 75 {
        target := Unreachable;
      } else if minNeededForThisGrade < 0 {
        // Math.ceil of a non-negative number: this branch is dead.
        assert false;
        target := Assured(GuaranteedGradeAsWritten(internal));
      } else {
        var maxNeededForThisGrade := if minMarkForGradeAbove > 75 then 75 else minMarkForGradeAbove - 1;
        if minNeededForThisGrade > maxNeededForThisGrade {
          target := Assured(GuaranteedGradeAsWritten(internal));
        } else {
          target := MarkRange(minNeededForThisGrade, maxNeededForThisGrade);
        }
      }
      if band.grade == O && minNeededForThisGrade <= 75 {
        target := MarkRange(if minNeededForThisGrade < 0 then 0 else minNeededForThisGrade, 75);
      }
      neededMarks := neededMarks + [CardRow(band.grade, target)];
      minMarkForGradeAbove := minNeededForThisGrade;
    }
    var minPassNeeded := Ceil(ExternalNeeded(internal, MinPassMarks as real));
    neededMarks := neededMarks + [CardRow(Fail, if minPassNeeded <= 0 then CannotFail else FailsAtOrBelow(minPassNeeded - 1))];
    targetGrades := Filter(neededMarks, NotPassCard);
  }

  /** Rounded-up needs never go negative. */
  lemma MinNeededNonNegative(internal: real, i: nat)
    requires i < |Bands|
    ensures MinNeeded(internal, i) >= 0
  {
    MarksNeededIsLeast(internal, Bands[i].min as real, 0);
  }

  /** Going down the table, the least mark needed never grows. */
  lemma MinNeededNonIncreasing(internal: real, i: nat)
    requires 0 < i < |Bands|
    ensures MinNeeded(internal, i) <= MinNeeded(internal, i - 1)
  {
    BandsWellFormed(i);
    MarksNeededMonotone(internal, Bands[i].min as real, Bands[i - 1].min as real);
  }

  /** While a band still needs exam marks, the band above needs strictly more:
      band minimums are at least one mark apart, which is 1.875 exam marks. */
  lemma MinNeededStrictWhilePositive(internal: real, i: nat)
    requires 0 < i < |Bands|
    requires MinNeeded(internal, i) > 0
    ensures MinNeeded(internal, i) < MinNeeded(internal, i - 1)
  {
    BandsWellFormed(i);
    var lo := ExternalNeeded(internal, Bands[i].min as real);
    var up := ExternalNeeded(internal, Bands[i - 1].min as real);
    assert lo > 0.0;
    assert up >= lo + 1.875;
  }

  /** A band is out of reach exactly when its least needed mark exceeds 75. */
  lemma BandTargetUnreachableIff(internal: real, i: nat)
    requires i < |Bands|
    ensures BandTarget(internal, i) == Unreachable <==> MinNeeded(internal, i) > 75
  {
    MinNeededNonNegative(internal, i);
  }

  /** A reported range starts at the least needed mark and ends one below the
      band above's start, or at 75 when that start is out of reach; both ends
      lie in [0, 75]. */
  lemma BandTargetRangeBounds(internal: real, i: nat)
    requires i < |Bands|
    requires BandTarget(internal, i).MarkRange?
    ensures var t := BandTarget(internal, i);
            var above := MarkForGradeAbove(internal, i);
            && t.lo == MinNeeded(internal, i)
            && t.hi == (if above > 75 then 75 else above - 1)
            && 0 <= t.lo <= t.hi <= 75
  {
    MinNeededNonNegative(internal, i);
    BandsWellFormed(i);
    if i > 0 {
      BandAt(i);
    }
  }

  /** The top row, when reachable, runs from the least needed mark to 75. */
  lemma TopRowRunsToFullMarks(internal: real)
    requires MinNeeded(internal, 0) <= 75
    ensures BandTarget(internal, 0) == MarkRange(MinNeeded(internal, 0), 75)
  {
    BandAt(0);
    MinNeededNonNegative(internal, 0);
  }

  /** Every whole exam mark inside a band's reported range gives exactly that
      band's grade. */
  lemma MarkRangeGivesGrade(internal: real, i: nat, m: int)
    requires i < |Bands|
    requires BandTarget(internal, i).MarkRange?
    requires BandTarget(internal, i).lo <= m <= BandTarget(internal, i).hi
    ensures GradeForTotal(internal + ConvertExternalTo40(m as real)) == Bands[i].grade
  {
    BandTargetRangeBounds(internal, i);
    var total := internal + ConvertExternalTo40(m as real);
    MarksNeededIsLeast(internal, Bands[i].min as real, m);
    if i > 0 {
      MarksNeededIsLeast(internal, Bands[i - 1].min as real, m);
    }
    GradeForTotalIsBand(total, i);
  }

  /** No whole mark lies in the ranges of two different rows. */
  lemma MarkRangesDisjoint(internal: real, i: nat, j: nat, m: int)
    requires i < |Bands| && j < |Bands|
    requires BandTarget(internal, i).MarkRange? && BandTarget(internal, i).lo <= m <= BandTarget(internal, i).hi
    requires BandTarget(internal, j).MarkRange? && BandTarget(internal, j).lo <= m <= BandTarget(internal, j).hi
    ensures i == j
  {
    MarkRangeGivesGrade(internal, i, m);
    MarkRangeGivesGrade(internal, j, m);
    BandsWellFormed(i);
    BandsWellFormed(j);
  }

  /** No gaps: every exam mark in [0, 75] whose total is at least 50 lies in
      the range of the band it earns. */
  lemma MarkRangesCoverPassingMarks(internal: real, m: int)
    requires 0 <= m <= 75
    requires internal + ConvertExternalTo40(m as real) >= MinPassMarks as real
    ensures var k := BandOfTotal(internal + ConvertExternalTo40(m as real));
            && BandTarget(internal, k).MarkRange?
            && BandTarget(internal, k).lo <= m <= BandTarget(internal, k).hi
            && GradeForTotal(internal + ConvertExternalTo40(m as real)) == Bands[k].grade
  {
    var total := internal + ConvertExternalTo40(m as real);
    var k := BandOfTotal(total);
    GradeForTotalIsBand(total, k);
    MarksNeededIsLeast(internal, Bands[k].min as real, m);
    MinNeededNonNegative(internal, k);
    BandAt(k);
    if k > 0 {
      MarksNeededIsLeast(internal, Bands[k - 1].min as real, m);
    }
  }

  /** An "assured" row is one the internal mark alone already reaches, and
      the grade it names is at least that band's. */
  lemma AssuredRowIsReached(internal: real, i: nat)
    requires i < |Bands|
    requires BandTarget(internal, i).Assured?
    ensures internal >= Bands[i].min as real
    ensures BandTarget(internal, i).grade == GradeForTotal(internal + ConvertExternalTo40(75.0))
    ensures Rank(BandTarget(internal, i).grade) >= Rank(Bands[i].grade)
    ensures Rank(BandTarget(internal, i).grade) >= Rank(GuaranteedGrade(internal))
  {
    BandAt(i);
    MinNeededNonNegative(internal, i);
    if i > 0 {
      MinNeededNonIncreasing(internal, i);
      if MinNeeded(internal, i) > 0 {
        MinNeededStrictWhilePositive(internal, i);
      }
    }
    MarksNeededIsLeast(internal, Bands[i].min as real, 0);
    GradeForTotalMonotone(Bands[i].min as real, internal + ConvertExternalTo40(75.0));
    GradeForTotalMonotone(internal, internal + ConvertExternalTo40(75.0));
    GradeForTotalIsBand(Bands[i].min as real, i);
  }

  /** The card's "Guaranteed" text names the grade of a perfect exam: with 55
      internal marks the C row reads "Guaranteed O", yet an exam mark of 0
      gives a B. */
  lemma AssuredRowOverclaims()
    ensures BandTarget(55.0, 5) == Assured(O)
    ensures GradeForTotal(55.0 + ConvertExternalTo40(0.0)) == B
  {
    BandAt(0);
    BandAt(3);
    BandAt(4);
    BandAt(5);
    GradeForTotalIsBand(95.0, 0);
    GradeForTotalIsBand(55.0, 4);
  }

  /** The Fail row says failing is impossible exactly when no exam mark is
      needed for 50; otherwise its bound is the largest mark that fails. */
  lemma FailTargetMeaning(internal: real)
    ensures FailTarget(internal) == CannotFail <==> MinNeeded(internal, PassIndex) <= 0
    ensures FailTarget(internal).FailsAtOrBelow? ==>
              var k := FailTarget(internal).marks;
              && k >= 0
              && GradeForTotal(internal + ConvertExternalTo40(k as real)) == Fail
              && GradeForTotal(internal + ConvertExternalTo40((k + 1) as real)) != Fail
  {
    BandAt(PassIndex);
    if FailTarget(internal).FailsAtOrBelow? {
      var k := FailTarget(internal).marks;
      MarksNeededIsLeast(internal, MinPassMarks as real, k);
      MarksNeededIsLeast(internal, MinPassMarks as real, k + 1);
      GradeForTotalFails(internal + ConvertExternalTo40(k as real));
      GradeForTotalFails(internal + ConvertExternalTo40((k + 1) as real));
    }
  }

  /** The card shows no Pass row: the six other bands in order, then Fail. */
  lemma CardTableShape(internal: real)
    ensures |CardTable(internal)| == |Bands|
    ensures forall i :: 0 <= i < PassIndex ==>
              CardTable(internal)[i] == CardRow(Bands[i].grade, BandTarget(internal, i))
    ensures CardTable(internal)[PassIndex] == CardRow(Fail, FailTarget(internal))
  {
    var all := seq(|Bands|, i requires 0 <= i < |Bands| => CardRow(Bands[i].grade, BandTarget(internal, i)));
    forall i | 0 <= i < PassIndex
      ensures all[i].grade != Pass
    {
      BandsWellFormed(i);
    }
    BandAt(PassIndex);
    DropPassRow(all, CardRow(Fail, FailTarget(internal)));
  }

  /** Filtering out Pass from the seven band rows and the Fail row keeps the
      first six rows and the Fail row. */
  lemma DropPassRow(rows: seq<CardRow>, failRow: CardRow)
    requires |rows| == PassIndex + 1 && failRow.grade == Fail
    requires forall i :: 0 <= i < PassIndex ==> rows[i].grade != Pass
    requires rows[PassIndex].grade == Pass
    ensures Filter(rows + [failRow], NotPassCard) == rows[..PassIndex] + [failRow]
  {
    FilterDropsLast(rows, NotPassCard);
    FilterAllKept([failRow], NotPassCard);
    FilterConcat(rows, [failRow], NotPassCard);
  }

  /** The dropped Pass row leaves marks that no shown row lists: with 30
      internal marks an exam mark of 38 gives Pass, while C starts at 40 and
      the Fail row stops at 37. */
  lemma PassMarksUnlisted()
    ensures GradeForTotal(30.0 + ConvertExternalTo40(38.0)) == Pass
    ensures MinNeeded(30.0, PassIndex + 0) == 38 && MinNeeded(30.0, PassIndex - 1) == 40
    ensures FailTarget(30.0) == FailsAtOrBelow(37)
  {
    BandAt(PassIndex);
    BandAt(PassIndex - 1);
    GradeForTotalIsBand(30.0 + ConvertExternalTo40(38.0), PassIndex);
  }
}
