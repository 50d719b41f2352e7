/** The Student Performance Index: a weighted blend of a student's mean
    score, mean attendance and normalised participation, less a penalty for
    failed courses and one for a falling trend, clamped to 0..100 and read
    off as one of four status bands. */
module Spi {
  import opened Records

  datatype Status = Excellent | Satisfactory | AtRisk | Critical {

    /** The label the dashboard shows for the band. */
    function Label(): string {
      match this
      case Excellent => "EXCELLENT"
      case Satisfactory => "SATISFACTORY"
      case AtRisk => "AT RISK"
      case Critical => "CRITICAL"
    }

    /** The colour token drawn for the band. */
    function Color(): string {
      match this
      case Excellent => "#2E7D32"
      case Satisfactory => "#F57C00"
      case AtRisk => "#EF6C00"
      case Critical => "#C62828"
    }
  }

  /** Every intermediate quantity of one computation, for explanation. */
  datatype Breakdown = Breakdown(
    baseSpi: real,
    academicComponent: real,
    attendanceComponent: real,
    engagementComponent: real,
    failurePenalty: int,
    trendPenalty: int,
    failedCourses: nat,
    performanceTrend: real,
    normalizedEngagement: real)

  datatype SpiResult = SpiResult(score: real, status: Status, statusColor: string, details: Breakdown)

  /** Python's two-argument `min`: the first argument unless the second is smaller. */
  function Min(a: real, b: real): real {
    if b < a then b else a
  }

  /** Python's two-argument `max`: the first argument unless the second is larger. */
  function Max(a: real, b: real): real {
    if b > a then b else a
  }

  /** Mean raised hands rescaled so that 30 hands is 100, capped at 100. */
  function NormalizedEngagement(meanHands: real): (e: real)
    ensures e <= 100.0
    ensures meanHands <= 30.0 ==> e == meanHands / 30.0 * 100.0
    ensures meanHands >= 30.0 ==> e == 100.0
    ensures meanHands >= 0.0 ==> e >= 0.0
  {
    Min(meanHands / 30.0 * 100.0, 100.0)
  }

  /** The weighted sum before penalties: 60% score, 25% attendance, 15% engagement. */
  function BaseSpi(rows: seq<Row>): real
    requires |rows| > 0
  {
    Mean(rows, Score) * 0.60 + Mean(rows, Attendance) * 0.25
      + NormalizedEngagement(Mean(rows, RaisedHands)) * 0.15
  }

  function CourseMean(rows: seq<Row>, course: string): real
    requires course in Courses(rows)
  {
    CourseGroupNonEmpty(rows, course);
    Mean(RowsOfCourse(rows, course), Score)
  }

  /** The courses whose mean score is strictly below the passing score. */
  function FailedCourses(rows: seq<Row>, passingScore: real): set<string> {
    set c | c in Courses(rows) && CourseMean(rows, c) < passingScore
  }

  /** The step penalty for failed courses. */
  function FailurePenalty(failed: nat): (p: int)
    ensures p == 0 <==> failed == 0
    ensures p == 5 <==> failed == 1
    ensures p == 10 <==> failed >= 2
  {
    if failed == 1 then 5
    else if failed >= 2 then 10
    else 0
  }

  function AssessmentMean(rows: seq<Row>, no: int): real
    requires no in Nos(rows)
  {
    AssessmentGroupNonEmpty(rows, no);
    Mean(RowsAt(rows, no), Score)
  }

  /** The mean score of the last assessment-number group less that of the
      first, or 0 when there are fewer than two groups. The `groupby` index
      is sorted, so its first and last keys are the least and greatest
      assessment numbers, and it has two or more keys exactly when those
      differ (Records.SortedKeysEndpoints). */
  function PerformanceChange(rows: seq<Row>): real
    requires |rows| > 0
  {
    var first, last := SeqMin(Nos(rows)), SeqMax(Nos(rows));
    if first < last then AssessmentMean(rows, last) - AssessmentMean(rows, first)
    else 0.0
  }

  /** The penalty for a drop of more than ten points. */
  function TrendPenalty(change: real): (p: int)
    ensures p == 5 <==> change < -10.0
    ensures p == 0 <==> change >= -10.0
  {
    if change < -10.0 then 5 else 0
  }

  /** `max(0, min(100, x))`. */
  function Clamp(x: real): (y: real)
    ensures 0.0 <= y <= 100.0
    ensures 0.0 <= x <= 100.0 ==> y == x
    ensures x < 0.0 ==> y == 0.0
    ensures x > 100.0 ==> y == 100.0
  {
    Max(0.0, Min(100.0, x))
  }

  /** The status band of a final score; each band is closed below. */
  function Classify(score: real): (s: Status)
    ensures s == Excellent <==> score >= 80.0
    ensures s == Satisfactory <==> 65.0 <= score < 80.0
    ensures s == AtRisk <==> 50.0 <= score < 65.0
    ensures s == Critical <==> score < 50.0
  {
    if score >= 80.0 then Excellent
    else if score >= 65.0 then Satisfactory
    else if score >= 50.0 then AtRisk
    else Critical
  }

  /** The engine: one student's rows in, score, status, colour and breakdown out. */
  function StudentPerformanceIndex(rows: seq<Row>, passingScore: real): (r: SpiResult)
    requires |rows| > 0
    ensures 0.0 <= r.score <= 100.0
    ensures r.status == Classify(r.score) && r.statusColor == r.status.Color()
    ensures r.details.failurePenalty in {0, 5, 10} && r.details.trendPenalty in {0, 5}
    ensures r.details.failurePenalty == FailurePenalty(r.details.failedCourses)
    ensures r.details.trendPenalty == TrendPenalty(r.details.performanceTrend)
    ensures r.details.baseSpi
              == r.details.academicComponent + r.details.attendanceComponent + r.details.engagementComponent
    ensures r.score
              == Clamp(r.details.baseSpi - r.details.failurePenalty as real - r.details.trendPenalty as real)
    ensures r.details.baseSpi == BaseSpi(rows)
    ensures r.details.failedCourses == |FailedCourses(rows, passingScore)|
    ensures r.details.performanceTrend == PerformanceChange(rows)
    ensures r.details.normalizedEngagement <= 100.0
    ensures r.details.academicComponent == Mean(rows, Score) * 0.60
    ensures r.details.attendanceComponent == Mean(rows, Attendance) * 0.25
    ensures r.details.normalizedEngagement == NormalizedEngagement(Mean(rows, RaisedHands))
    ensures r.details.engagementComponent == r.details.normalizedEngagement * 0.15
  {
    var academic := Mean(rows, Score) * 0.60;
    var attendance := Mean(rows, Attendance) * 0.25;
    var engagement := NormalizedEngagement(Mean(rows, RaisedHands));
    var base := academic + attendance + engagement * 0.15;
    var failed := |FailedCourses(rows, passingScore)|;
    var failurePenalty := FailurePenalty(failed);
    var change := PerformanceChange(rows);
    var trendPenalty := TrendPenalty(change);
    var score := Clamp(base - failurePenalty as real - trendPenalty as real);
    var status := Classify(score);
    SpiResult(score, status, status.Color(),
              Breakdown(base, academic, attendance, engagement * 0.15, failurePenalty, trendPenalty,
                        failed, change, engagement))
  }
}
