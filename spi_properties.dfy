/** What the performance index promises beyond a single call: the base score
    stays in range for in-range data, the trend looks only at the first and
    last assessment numbers, raising every score never lowers the index, and
    worked examples. */
module SpiProperties {
  import opened Records
  import opened Spi

  /** With scores and attendance in 0..100 and no negative hand counts, the
      weighted sum before penalties is itself in 0..100. */
  lemma BaseSpiInRange(rows: seq<Row>)
    requires |rows| > 0
    requires forall i :: 0 <= i < |rows| ==> 0.0 <= rows[i].score <= 100.0
    requires forall i :: 0 <= i < |rows| ==> 0.0 <= rows[i].attendance <= 100.0
    requires forall i :: 0 <= i < |rows| ==> 0.0 <= rows[i].raisedHands
    ensures 0.0 <= BaseSpi(rows) <= 100.0
  {
    MeanAtLeast(rows, Score, 0.0);
    MeanAtMost(rows, Score, 100.0);
    MeanAtLeast(rows, Attendance, 0.0);
    MeanAtMost(rows, Attendance, 100.0);
    MeanAtLeast(rows, RaisedHands, 0.0);
  }

  /** With a single distinct assessment number there is no trend and no penalty. */
  lemma NoTrendWithOneAssessmentNo(rows: seq<Row>)
    requires |rows| > 0
    requires forall i, j :: 0 <= i < |rows| && 0 <= j < |rows| ==> rows[i].assessmentNo == rows[j].assessmentNo
    ensures |SortedKeys(Nos(rows))| == 1
    ensures PerformanceChange(rows) == 0.0
    ensures TrendPenalty(PerformanceChange(rows)) == 0
  {
    var ns := Nos(rows);
    SortedKeysEndpoints(ns);
    var i :| 0 <= i < |ns| && ns[i] == SeqMin(ns);
    var j :| 0 <= j < |ns| && ns[j] == SeqMax(ns);
    assert rows[i].assessmentNo == rows[j].assessmentNo;
  }

  /** With two or more distinct assessment numbers the change is the mean at
      the greatest number less the mean at the least, whatever the row order. */
  lemma PerformanceChangeEndpoints(rows: seq<Row>, first: int, last: int)
    requires first in Nos(rows) && last in Nos(rows) && first < last
    requires forall x :: x in Nos(rows) ==> first <= x <= last
    ensures |SortedKeys(Nos(rows))| >= 2
    ensures PerformanceChange(rows) == AssessmentMean(rows, last) - AssessmentMean(rows, first)
  {
    var ns := Nos(rows);
    SortedKeysEndpoints(ns);
    assert SeqMin(ns) == first && SeqMax(ns) == last;
  }

  lemma {:induction false} RowsAtConcat(a: seq<Row>, b: seq<Row>, no: int)
    ensures RowsAt(a + b, no) == RowsAt(a, no) + RowsAt(b, no)
  {
    if a == [] {
      assert a + b == b;
    } else {
      RowsAtConcat(a[1..], b, no);
      assert (a + b)[0] == a[0];
      assert (a + b)[1..] == a[1..] + b;
      if a[0].assessmentNo == no {
        assert [a[0]] + (RowsAt(a[1..], no) + RowsAt(b, no))
                 == ([a[0]] + RowsAt(a[1..], no)) + RowsAt(b, no);
      }
    }
  }

  /** The rows of any assessment number other than the inserted row's are
      those of the original sequence. */
  lemma RowsAtInsert(rows: seq<Row>, at: nat, extra: Row, no: int)
    requires at <= |rows| && no != extra.assessmentNo
    ensures RowsAt(rows[..at] + [extra] + rows[at..], no) == RowsAt(rows, no)
  {
    RowsAtConcat(rows[..at] + [extra], rows[at..], no);
    RowsAtConcat(rows[..at], [extra], no);
    RowsAtConcat(rows[..at], rows[at..], no);
    assert rows[..at] + rows[at..] == rows;
    assert RowsAt([extra], no) == [];
  }

  lemma NosInsert(rows: seq<Row>, at: nat, extra: Row)
    requires at <= |rows|
    ensures forall y :: y in Nos(rows[..at] + [extra] + rows[at..]) <==> y in Nos(rows) || y == extra.assessmentNo
  {
    var ns := Nos(rows);
    assert Nos(rows[..at] + [extra] + rows[at..]) == ns[..at] + [extra.assessmentNo] + ns[at..];
    assert ns == ns[..at] + ns[at..];
  }

  /** Inserting a row, anywhere in the sequence, whose assessment number lies
      strictly between two existing ones leaves the change unchanged, however
      low its score: only the endpoint groups count. */
  lemma TrendIgnoresInterior(rows: seq<Row>, at: nat, extra: Row)
    requires at <= |rows|
    requires exists j, k :: 0 <= j < |rows| && 0 <= k < |rows|
               && rows[j].assessmentNo < extra.assessmentNo < rows[k].assessmentNo
    ensures PerformanceChange(rows[..at] + [extra] + rows[at..]) == PerformanceChange(rows)
    ensures TrendPenalty(PerformanceChange(rows[..at] + [extra] + rows[at..]))
              == TrendPenalty(PerformanceChange(rows))
  {
    var grown := rows[..at] + [extra] + rows[at..];
    var x := extra.assessmentNo;
    var j, k :| 0 <= j < |rows| && 0 <= k < |rows|
                && rows[j].assessmentNo < x < rows[k].assessmentNo;
    var ns := Nos(rows);
    assert ns[j] in ns && ns[k] in ns;
    NosInsert(rows, at, extra);
    InteriorKeepsExtremes(ns, Nos(grown), x, ns[j], ns[k]);
    RowsAtInsert(rows, at, extra, SeqMin(ns));
    RowsAtInsert(rows, at, extra, SeqMax(ns));
  }

  function RaiseRow(r: Row, delta: real): Row {
    r.(score := r.score + delta)
  }

  /** Every row's score raised by `delta`, nothing else changed. */
  function Raised(rows: seq<Row>, delta: real): (up: seq<Row>)
    ensures |up| == |rows|
    ensures forall i :: 0 <= i < |rows| ==> up[i] == RaiseRow(rows[i], delta)
  {
    if rows == [] then [] else [RaiseRow(rows[0], delta)] + Raised(rows[1..], delta)
  }

  lemma {:induction false} SumRaised(rows: seq<Row>, delta: real, c: Column)
    ensures Sum(Raised(rows, delta), c)
              == Sum(rows, c) + (if c == Score then (|rows| as real) * delta else 0.0)
  {
    if rows != [] {
      SumRaised(rows[1..], delta, c);
    }
  }

  lemma MeanRaised(rows: seq<Row>, delta: real)
    requires |rows| > 0
    ensures Mean(Raised(rows, delta), Score) == Mean(rows, Score) + delta
    ensures Mean(Raised(rows, delta), Attendance) == Mean(rows, Attendance)
    ensures Mean(Raised(rows, delta), RaisedHands) == Mean(rows, RaisedHands)
  {
    SumRaised(rows, delta, Score);
    SumRaised(rows, delta, Attendance);
    SumRaised(rows, delta, RaisedHands);
    ShiftedQuotient(Sum(rows, Score), |rows| as real, delta);
  }

  lemma ShiftedQuotient(total: real, n: real, delta: real)
    requires n > 0.0
    ensures (total + n * delta) / n == total / n + delta
  {
    assert (total + n * delta) / n * n == total + n * delta;
    assert (total / n + delta) * n == total + n * delta;
  }

  lemma {:induction false} RowsOfCourseRaised(rows: seq<Row>, delta: real, course: string)
    ensures RowsOfCourse(Raised(rows, delta), course) == Raised(RowsOfCourse(rows, course), delta)
  {
    if rows != [] {
      RowsOfCourseRaised(rows[1..], delta, course);
      if rows[0].course == course {
        assert ([rows[0]] + RowsOfCourse(rows[1..], course))[1..] == RowsOfCourse(rows[1..], course);
      }
    }
  }

  lemma {:induction false} RowsAtRaised(rows: seq<Row>, delta: real, no: int)
    ensures RowsAt(Raised(rows, delta), no) == Raised(RowsAt(rows, no), delta)
  {
    if rows != [] {
      RowsAtRaised(rows[1..], delta, no);
      if rows[0].assessmentNo == no {
        assert ([rows[0]] + RowsAt(rows[1..], no))[1..] == RowsAt(rows[1..], no);
      }
    }
  }

  /** Raising every score moves each course mean up by the same amount, so no
      course that passed starts to fail. */
  lemma FailedCoursesShrink(rows: seq<Row>, delta: real, passingScore: real)
    requires delta >= 0.0
    ensures FailedCourses(Raised(rows, delta), passingScore) <= FailedCourses(rows, passingScore)
    ensures |FailedCourses(Raised(rows, delta), passingScore)| <= |FailedCourses(rows, passingScore)|
  {
    var up := Raised(rows, delta);
    assert Courses(up) == Courses(rows) by {
      forall c | c in Courses(up) ensures c in Courses(rows) {
        var i :| 0 <= i < |up| && up[i].course == c;
        assert rows[i] in rows;
      }
      forall c | c in Courses(rows) ensures c in Courses(up) {
        var i :| 0 <= i < |rows| && rows[i].course == c;
        assert up[i] in up;
      }
    }
    forall c | c in FailedCourses(up, passingScore)
      ensures c in FailedCourses(rows, passingScore)
    {
      RowsOfCourseRaised(rows, delta, c);
      CourseGroupNonEmpty(rows, c);
      MeanRaised(RowsOfCourse(rows, c), delta);
      assert CourseMean(up, c) == CourseMean(rows, c) + delta;
    }
    SubsetCardinality(FailedCourses(up, passingScore), FailedCourses(rows, passingScore));
  }

  lemma SubsetCardinality(a: set<string>, b: set<string>)
    requires a <= b
    ensures |a| <= |b|
  {
    assert b == a + (b - a);
  }

  /** Raising every score leaves the trend as it was: both endpoint means move together. */
  lemma PerformanceChangeRaised(rows: seq<Row>, delta: real)
    requires |rows| > 0
    ensures PerformanceChange(Raised(rows, delta)) == PerformanceChange(rows)
  {
    var up := Raised(rows, delta);
    assert Nos(up) == Nos(rows);
    var first, last := SeqMin(Nos(rows)), SeqMax(Nos(rows));
    if first < last {
      RaisedGroupMean(rows, delta, first);
      RaisedGroupMean(rows, delta, last);
    }
  }

  lemma RaisedGroupMean(rows: seq<Row>, delta: real, no: int)
    requires no in Nos(rows)
    ensures no in Nos(Raised(rows, delta))
    ensures AssessmentMean(Raised(rows, delta), no) == AssessmentMean(rows, no) + delta
  {
    assert Nos(Raised(rows, delta)) == Nos(rows);
    RowsAtRaised(rows, delta, no);
    AssessmentGroupNonEmpty(rows, no);
    MeanRaised(RowsAt(rows, no), delta);
  }

  lemma BaseSpiRaised(rows: seq<Row>, delta: real)
    requires |rows| > 0
    ensures BaseSpi(Raised(rows, delta)) == BaseSpi(rows) + delta * 0.60
  {
    MeanRaised(rows, delta);
  }

  /** Raising every score by a non-negative amount never lowers the index:
      the base grows by 60% of the amount, the failed-course count can only
      fall and the trend is unchanged. No proviso about course-failure
      boundaries is needed. */
  lemma ScoreMonotone(rows: seq<Row>, delta: real, passingScore: real)
    requires |rows| > 0 && delta >= 0.0
    ensures StudentPerformanceIndex(Raised(rows, delta), passingScore).score
              >= StudentPerformanceIndex(rows, passingScore).score
  {
    BaseSpiRaised(rows, delta);
    FailedCoursesShrink(rows, delta, passingScore);
    PerformanceChangeRaised(rows, delta);
  }

  function Sample(course: string, no: int, score: real, attendance: real, hands: real): Row {
    Row(1, "Student", "C1", course, no, score, attendance, hands)
  }

  /** One course, two assessments at 90, full attendance, 30 raised hands:
      54 + 25 + 15 = 94 with no penalty, which is EXCELLENT. */
  lemma ScenarioExcellent()
    ensures var r := StudentPerformanceIndex([Sample("Math", 1, 90.0, 100.0, 30.0),
                                              Sample("Math", 2, 90.0, 100.0, 30.0)], 60.0);
      && r.details.academicComponent == 54.0 && r.details.attendanceComponent == 25.0
      && r.details.engagementComponent == 15.0 && r.details.failedCourses == 0
      && r.details.trendPenalty == 0 && r.score == 94.0 && r.status == Excellent
  {
    var rows := [Sample("Math", 1, 90.0, 100.0, 30.0), Sample("Math", 2, 90.0, 100.0, 30.0)];
    assert Courses(rows) == {"Math"};
    assert RowsOfCourse(rows, "Math") == rows;
    assert FailedCourses(rows, 60.0) == {};
    assert Nos(rows) == [1, 2];
    assert RowsAt(rows, 1) == [rows[0]] && RowsAt(rows, 2) == [rows[1]];
  }

  /** One course failing with mean 40 and one passing with mean 90: exactly
      one failed course, so a penalty of 5. */
  lemma ScenarioOneFailedCourse()
    ensures var r := StudentPerformanceIndex([Sample("Math", 1, 40.0, 50.0, 0.0),
                                              Sample("Art", 1, 90.0, 50.0, 0.0)], 60.0);
      && r.details.failedCourses == 1 && r.details.failurePenalty == 5
  {
    var rows := [Sample("Math", 1, 40.0, 50.0, 0.0), Sample("Art", 1, 90.0, 50.0, 0.0)];
    assert Courses(rows) == {"Math", "Art"};
    assert RowsOfCourse(rows, "Math") == [rows[0]];
    assert RowsOfCourse(rows, "Art") == [rows[1]];
    assert FailedCourses(rows, 60.0) == {"Math"};
  }

  /** A course whose mean is exactly the passing score does not fail: with
      one course at mean 60 and a passing score of 60 there is no failure
      penalty. */
  lemma ScenarioMeanAtPassingScore()
    ensures var r := StudentPerformanceIndex([Sample("Math", 1, 50.0, 80.0, 0.0),
                                              Sample("Math", 1, 70.0, 80.0, 0.0)], 60.0);
      && r.details.failedCourses == 0 && r.details.failurePenalty == 0
  {
    var rows := [Sample("Math", 1, 50.0, 80.0, 0.0), Sample("Math", 1, 70.0, 80.0, 0.0)];
    assert Courses(rows) == {"Math"};
    assert RowsOfCourse(rows, "Math") == rows;
    assert FailedCourses(rows, 60.0) == {};
  }

  /** Assessment means 80, 85, 60 at numbers 1, 2, 3: the change is
      60 - 80 = -20, so the trend penalty is 5 although the second
      assessment rose. */
  lemma ScenarioFallingTrend()
    ensures var rows := [Sample("Math", 1, 80.0, 90.0, 10.0), Sample("Math", 2, 85.0, 90.0, 10.0),
                         Sample("Math", 3, 60.0, 90.0, 10.0)];
      && PerformanceChange(rows) == -20.0
      && StudentPerformanceIndex(rows, 60.0).details.trendPenalty == 5
  {
    var rows := [Sample("Math", 1, 80.0, 90.0, 10.0), Sample("Math", 2, 85.0, 90.0, 10.0),
                 Sample("Math", 3, 60.0, 90.0, 10.0)];
    assert Nos(rows) == [1, 2, 3];
    assert RowsAt(rows, 1) == [rows[0]] && RowsAt(rows, 3) == [rows[2]];
  }
}
