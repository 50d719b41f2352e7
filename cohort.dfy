/** The risk overview: the index run once per student, merged onto the
    per-student summary, an at-risk flag per student and the cohort counts. */
module Cohort {
  import opened Records
  import opened Spi

  /** One entry of the list of per-student index results. */
  datatype IndexEntry = IndexEntry(studentId: int, spiScore: real, status: string, statusColor: string)

  /** One line of the per-student summary table once the index columns and
      the at-risk flag are added. */
  datatype StudentSummary = StudentSummary(
    studentId: int,
    meanScore: real,
    meanAttendance: real,
    meanRaisedHands: real,
    classLevel: string,
    studentName: string,
    spiScore: real,
    status: string,
    statusColor: string,
    atRisk: bool)

  /** The students of the dataset, in the ascending order `groupby('student_id')` gives. */
  function StudentIds(df: seq<Row>): seq<int> {
    SortedKeys(Ids(df))
  }

  /** The index result recorded for one student. */
  function IndexEntryOf(df: seq<Row>, id: int, passingScore: real): IndexEntry
    requires id in Ids(df)
  {
    StudentGroupNonEmpty(df, id);
    var r := StudentPerformanceIndex(RowsOfStudent(df, id), passingScore);
    IndexEntry(id, r.score, r.status.Label(), r.statusColor)
  }

  /** The statuses the dashboard treats as at risk. */
  predicate IsAtRiskStatus(status: string) {
    status == "AT RISK" || status == "CRITICAL"
  }

  /** The summary line of one student: column means and first class level
      and name over the student's rows, merged with the index result, plus
      the at-risk flag. */
  function Summarize(df: seq<Row>, entry: IndexEntry): StudentSummary
    requires entry.studentId in Ids(df)
  {
    StudentGroupNonEmpty(df, entry.studentId);
    var rows := RowsOfStudent(df, entry.studentId);
    StudentSummary(entry.studentId, Mean(rows, Score), Mean(rows, Attendance), Mean(rows, RaisedHands),
                   rows[0].classLevel, rows[0].studentName,
                   entry.spiScore, entry.status, entry.statusColor, IsAtRiskStatus(entry.status))
  }

  /** A student is at risk exactly when the index is below 65, the lower
      bound of SATISFACTORY. */
  lemma AtRiskIffBelowSatisfactory(score: real)
    ensures IsAtRiskStatus(Classify(score).Label()) <==> score < 65.0
  {
    var s := Classify(score);
    assert s.Label() == "AT RISK" <==> s == AtRisk;
    assert s.Label() == "CRITICAL" <==> s == Critical;
  }

  function CountAtRisk(students: seq<StudentSummary>): (n: nat)
    ensures n <= |students|
  {
    if students == [] then 0
    else (if students[0].atRisk then 1 else 0) + CountAtRisk(students[1..])
  }

  function CountPassing(students: seq<StudentSummary>): (n: nat)
    ensures n <= |students|
  {
    if students == [] then 0
    else (if students[0].atRisk then 0 else 1) + CountPassing(students[1..])
  }

  /** Every student is counted once, as at risk or as passing. */
  lemma {:induction false} AtRiskAndPassingPartition(students: seq<StudentSummary>)
    ensures CountAtRisk(students) + CountPassing(students) == |students|
  {
    if students != [] {
      AtRiskAndPassingPartition(students[1..]);
    }
  }

  /** The at-risk students of one class level. */
  function AtRiskInClass(students: seq<StudentSummary>, level: string): (n: nat)
    ensures n <= CountAtRisk(students)
  {
    if students == [] then 0
    else (if students[0].atRisk && students[0].classLevel == level then 1 else 0)
           + AtRiskInClass(students[1..], level)
  }

  /** The at-risk count per class level, holding only the levels that have
      an at-risk student. */
  function AtRiskByClass(students: seq<StudentSummary>): (m: map<string, nat>)
    ensures forall level :: level in m <==> AtRiskInClass(students, level) > 0
    ensures forall level :: level in m ==> m[level] == AtRiskInClass(students, level)
  {
    if students == [] then map[]
    else
      var rest := AtRiskByClass(students[1..]);
      var s := students[0];
      if s.atRisk then
        rest[s.classLevel := (if s.classLevel in rest then rest[s.classLevel] else 0) + 1]
      else rest
  }

  /** The summary line of a student carries the student's index, within
      0..100, and flags the student at risk exactly when it is below 65. */
  lemma SummaryOfStudent(df: seq<Row>, id: int, passingScore: real)
    requires id in Ids(df)
    ensures var s := Summarize(df, IndexEntryOf(df, id, passingScore));
      && s.studentId == id
      && 0.0 <= s.spiScore <= 100.0
      && (s.atRisk <==> s.spiScore < 65.0)
  {
    StudentGroupNonEmpty(df, id);
    AtRiskIffBelowSatisfactory(StudentPerformanceIndex(RowsOfStudent(df, id), passingScore).score);
  }

  /** `nunique` of the student column is the number of `groupby` groups. */
  lemma StudentCount(df: seq<Row>)
    ensures |StudentIds(df)| == |set r | r in df :: r.studentId|
  {
    KeyCount(Ids(df));
    assert (set x | x in Ids(df)) == (set r | r in df :: r.studentId) by {
      forall x | x in Ids(df) ensures x in (set r | r in df :: r.studentId) {
        var k :| 0 <= k < |df| && Ids(df)[k] == x;
        assert df[k] in df;
      }
      forall x | x in (set r | r in df :: r.studentId) ensures x in Ids(df) {
        var k :| 0 <= k < |df| && df[k].studentId == x;
        assert Ids(df)[k] == x;
      }
    }
  }

  /** The loop over the students: one index result per student, in order. */
  method IndexStudents(df: seq<Row>, passingScore: real) returns (spiResults: seq<IndexEntry>)
    ensures |spiResults| == |StudentIds(df)|
    ensures forall j :: 0 <= j < |spiResults| ==>
              StudentIds(df)[j] in Ids(df) && spiResults[j] == IndexEntryOf(df, StudentIds(df)[j], passingScore)
  {
    var ids := StudentIds(df);
    spiResults := [];
    var i := 0;
    while i < |ids|
      invariant 0 <= i <= |ids|
      invariant |spiResults| == i
      invariant forall j :: 0 <= j < i ==> ids[j] in Ids(df) && spiResults[j] == IndexEntryOf(df, ids[j], passingScore)
    {
      var id := ids[i];
      assert id in Ids(df);
      StudentGroupNonEmpty(df, id);
      var studentData := RowsOfStudent(df, id);
      var result := StudentPerformanceIndex(studentData, passingScore);
      spiResults := spiResults + [IndexEntry(id, result.score, result.status.Label(), result.statusColor)];
      i := i + 1;
    }
  }

  /** Runs the index once per student, merges the results onto the
      per-student summary with an at-risk flag, and counts the at-risk and
      the passing students. */
  method RiskOverview(df: seq<Row>, passingScore: real)
    returns (students: seq<StudentSummary>, atRiskByClass: map<string, nat>,
             totalStudents: nat, atRiskTotal: nat, passingTotal: nat)
    ensures |students| == |StudentIds(df)|
    ensures forall i :: 0 <= i < |students| ==>
              StudentIds(df)[i] in Ids(df)
              && students[i] == Summarize(df, IndexEntryOf(df, StudentIds(df)[i], passingScore))
    ensures forall i :: 0 <= i < |students| ==> students[i].studentId == StudentIds(df)[i]
    ensures forall i :: 0 <= i < |students| ==> 0.0 <= students[i].spiScore <= 100.0
    ensures forall i :: 0 <= i < |students| ==> (students[i].atRisk <==> students[i].spiScore < 65.0)
    ensures atRiskByClass == AtRiskByClass(students)
    // A consequence of the clause above and the contracts of AtRiskByClass and AtRiskInClass.
    ensures forall level :: level in atRiskByClass ==> 0 < atRiskByClass[level] <= atRiskTotal
    ensures totalStudents == |set r | r in df :: r.studentId|
    ensures atRiskTotal == CountAtRisk(students)
    ensures passingTotal == CountPassing(students)
    ensures passingTotal + atRiskTotal == totalStudents
  {
    var ids := StudentIds(df);
    var spiResults := IndexStudents(df, passingScore);
    students := seq(|ids|, k requires 0 <= k < |ids| => Summarize(df, spiResults[k]));
    forall k | 0 <= k < |students|
      ensures students[k].studentId == ids[k]
      ensures 0.0 <= students[k].spiScore <= 100.0
      ensures students[k].atRisk <==> students[k].spiScore < 65.0
    {
      SummaryOfStudent(df, ids[k], passingScore);
    }
    atRiskByClass := AtRiskByClass(students);
    atRiskTotal := CountAtRisk(students);
    totalStudents := |ids|;
    StudentCount(df);
    passingTotal := totalStudents - atRiskTotal;
    AtRiskAndPassingPartition(students);
  }
}
