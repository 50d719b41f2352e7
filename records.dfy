/** The assessment table the dashboard works on, and the few pandas
    operations the performance index uses on it (column means, the rows of
    one group, the sorted keys of a `groupby`), written as functions over
    sequences of rows. */
module Records {

  /** One row of the dataset: one student, one course, one assessment occasion. */
  datatype Row = Row(
    studentId: int,
    studentName: string,
    classLevel: string,
    course: string,
    assessmentNo: int,
    score: real,
    attendance: real,
    raisedHands: real)

  /** The numeric columns the index averages. */
  datatype Column = Score | Attendance | RaisedHands

  function Value(r: Row, c: Column): real {
    match c
    case Score => r.score
    case Attendance => r.attendance
    case RaisedHands => r.raisedHands
  }

  function Sum(rows: seq<Row>, c: Column): real {
    if rows == [] then 0.0 else Value(rows[0], c) + Sum(rows[1..], c)
  }

  /** `frame[column].mean()`; pandas yields NaN on no rows, which is left undefined here. */
  function Mean(rows: seq<Row>, c: Column): real
    requires |rows| > 0
  {
    Sum(rows, c) / (|rows| as real)
  }

  lemma {:induction false} SumAtLeast(rows: seq<Row>, c: Column, lo: real)
    requires forall i :: 0 <= i < |rows| ==> lo <= Value(rows[i], c)
    ensures (|rows| as real) * lo <= Sum(rows, c)
  {
    if rows != [] {
      SumAtLeast(rows[1..], c, lo);
    }
  }

  lemma {:induction false} SumAtMost(rows: seq<Row>, c: Column, hi: real)
    requires forall i :: 0 <= i < |rows| ==> Value(rows[i], c) <= hi
    ensures Sum(rows, c) <= (|rows| as real) * hi
  {
    if rows != [] {
      SumAtMost(rows[1..], c, hi);
    }
  }

  /** A mean is at least any lower bound of the values it averages. */
  lemma MeanAtLeast(rows: seq<Row>, c: Column, lo: real)
    requires |rows| > 0
    requires forall i :: 0 <= i < |rows| ==> lo <= Value(rows[i], c)
    ensures lo <= Mean(rows, c)
  {
    SumAtLeast(rows, c, lo);
    var n, m := |rows| as real, Mean(rows, c);
    assert m * n == Sum(rows, c);
    assert (m - lo) * n >= 0.0;
  }

  /** A mean is at most any upper bound of the values it averages. */
  lemma MeanAtMost(rows: seq<Row>, c: Column, hi: real)
    requires |rows| > 0
    requires forall i :: 0 <= i < |rows| ==> Value(rows[i], c) <= hi
    ensures Mean(rows, c) <= hi
  {
    SumAtMost(rows, c, hi);
    var n, m := |rows| as real, Mean(rows, c);
    assert m * n == Sum(rows, c);
    assert (hi - m) * n >= 0.0;
  }

  /** The rows of one course: the group `groupby('course_name')` forms for it. */
  function RowsOfCourse(rows: seq<Row>, course: string): (g: seq<Row>)
    ensures |g| <= |rows|
  {
    if rows == [] then []
    else if rows[0].course == course then [rows[0]] + RowsOfCourse(rows[1..], course)
    else RowsOfCourse(rows[1..], course)
  }

  /** The rows of one assessment number: the group `groupby('assessment_no')` forms for it. */
  function RowsAt(rows: seq<Row>, no: int): (g: seq<Row>)
    ensures |g| <= |rows|
  {
    if rows == [] then []
    else if rows[0].assessmentNo == no then [rows[0]] + RowsAt(rows[1..], no)
    else RowsAt(rows[1..], no)
  }

  /** The rows of one student: the mask `df[df['student_id'] == id]`. */
  function RowsOfStudent(rows: seq<Row>, id: int): (g: seq<Row>)
    ensures |g| <= |rows|
  {
    if rows == [] then []
    else if rows[0].studentId == id then [rows[0]] + RowsOfStudent(rows[1..], id)
    else RowsOfStudent(rows[1..], id)
  }

  // Membership in a group, and the number of copies of each row it keeps,
  // are stated by separate lemmas rather than in the filters' own
  // contracts, so that they are in scope only where a proof asks.

  lemma {:induction false} RowsOfCourseMembers(rows: seq<Row>, course: string)
    ensures forall r :: r in RowsOfCourse(rows, course) <==> r in rows && r.course == course
    ensures forall r :: multiset(RowsOfCourse(rows, course))[r] == (if r.course == course then multiset(rows)[r] else 0)
  {
    if rows != [] {
      RowsOfCourseMembers(rows[1..], course);
      assert rows == [rows[0]] + rows[1..];
      assert forall r :: r in rows <==> r == rows[0] || r in rows[1..];
    }
  }

  lemma {:induction false} RowsAtMembers(rows: seq<Row>, no: int)
    ensures forall r :: r in RowsAt(rows, no) <==> r in rows && r.assessmentNo == no
    ensures forall r :: multiset(RowsAt(rows, no))[r] == (if r.assessmentNo == no then multiset(rows)[r] else 0)
  {
    if rows != [] {
      RowsAtMembers(rows[1..], no);
      assert rows == [rows[0]] + rows[1..];
      assert forall r :: r in rows <==> r == rows[0] || r in rows[1..];
    }
  }

  lemma {:induction false} RowsOfStudentMembers(rows: seq<Row>, id: int)
    ensures forall r :: r in RowsOfStudent(rows, id) <==> r in rows && r.studentId == id
    ensures forall r :: multiset(RowsOfStudent(rows, id))[r] == (if r.studentId == id then multiset(rows)[r] else 0)
  {
    if rows != [] {
      RowsOfStudentMembers(rows[1..], id);
      assert rows == [rows[0]] + rows[1..];
      assert forall r :: r in rows <==> r == rows[0] || r in rows[1..];
    }
  }

  function Courses(rows: seq<Row>): set<string> {
    set r | r in rows :: r.course
  }

  /** The `assessment_no` column. */
  function Nos(rows: seq<Row>): (ns: seq<int>)
    ensures |ns| == |rows|
  {
    seq(|rows|, i requires 0 <= i < |rows| => rows[i].assessmentNo)
  }

  /** The `student_id` column. */
  function Ids(rows: seq<Row>): (ids: seq<int>)
    ensures |ids| == |rows|
  {
    seq(|rows|, i requires 0 <= i < |rows| => rows[i].studentId)
  }

  lemma CourseGroupNonEmpty(rows: seq<Row>, course: string)
    requires course in Courses(rows)
    ensures |RowsOfCourse(rows, course)| > 0
  {
    var r :| r in rows && r.course == course;
    RowsOfCourseMembers(rows, course);
    assert r in RowsOfCourse(rows, course);
  }

  lemma AssessmentGroupNonEmpty(rows: seq<Row>, no: int)
    requires no in Nos(rows)
    ensures |RowsAt(rows, no)| > 0
  {
    var i :| 0 <= i < |rows| && Nos(rows)[i] == no;
    RowsAtMembers(rows, no);
    assert rows[i] in RowsAt(rows, no);
  }

  lemma StudentGroupNonEmpty(rows: seq<Row>, id: int)
    requires id in Ids(rows)
    ensures |RowsOfStudent(rows, id)| > 0
  {
    var i :| 0 <= i < |rows| && Ids(rows)[i] == id;
    RowsOfStudentMembers(rows, id);
    assert rows[i] in RowsOfStudent(rows, id);
  }

  ghost predicate StrictlyIncreasing(s: seq<int>) {
    forall i, j :: 0 <= i < j < |s| ==> s[i] < s[j]
  }

  function SeqMin(xs: seq<int>): (m: int)
    requires |xs| > 0
    ensures m in xs
    ensures forall x :: x in xs ==> m <= x
  {
    if |xs| == 1 then xs[0]
    else
      var rest := SeqMin(xs[1..]);
      assert forall x :: x in xs ==> x == xs[0] || x in xs[1..];
      if xs[0] <= rest then xs[0] else rest
  }

  function Without(xs: seq<int>, m: int): (ys: seq<int>)
    ensures forall y :: y in ys <==> y in xs && y != m
    ensures m in xs ==> |ys| < |xs|
    ensures |ys| <= |xs|
  {
    if xs == [] then []
    else if xs[0] == m then Without(xs[1..], m)
    else
      assert forall x :: x in xs ==> x == xs[0] || x in xs[1..];
      [xs[0]] + Without(xs[1..], m)
  }

  /** The index of a `groupby` on an integer column: its distinct values in
      ascending order, so that `iloc[0]` is the least and `iloc[-1]` the
      greatest. */
  function SortedKeys(xs: seq<int>): (keys: seq<int>)
    ensures StrictlyIncreasing(keys)
    ensures forall x :: x in keys <==> x in xs
    decreases |xs|
  {
    if xs == [] then []
    else
      var m := SeqMin(xs);
      var rest := SortedKeys(Without(xs, m));
      assert forall k :: k in rest ==> m < k;
      [m] + rest
  }

  /** A strictly increasing sequence lists each of its values once, so its
      length is the number of distinct values. */
  lemma {:induction false} IncreasingLengthIsCardinality(s: seq<int>)
    requires StrictlyIncreasing(s)
    ensures |set x | x in s| == |s|
  {
    if s != [] {
      IncreasingLengthIsCardinality(s[1..]);
      assert (set x | x in s) == {s[0]} + (set x | x in s[1..]);
      assert s[0] !in (set x | x in s[1..]);
    }
  }

  /** The number of groups `groupby` forms is the number of distinct keys. */
  lemma KeyCount(xs: seq<int>)
    ensures |SortedKeys(xs)| == |set x | x in xs|
  {
    var keys := SortedKeys(xs);
    IncreasingLengthIsCardinality(keys);
    assert (set x | x in keys) == (set x | x in xs);
  }

  function SeqMax(xs: seq<int>): (m: int)
    requires |xs| > 0
    ensures m in xs
    ensures forall x :: x in xs ==> x <= m
  {
    if |xs| == 1 then xs[0]
    else
      var rest := SeqMax(xs[1..]);
      assert forall x :: x in xs ==> x == xs[0] || x in xs[1..];
      if xs[0] >= rest then xs[0] else rest
  }

  /** The `groupby` index of a non-empty column starts at the column's least
      value and ends at its greatest, and holds two or more keys exactly
      when those differ: `iloc[0]` and `iloc[-1]` are the minimum and the
      maximum. */
  lemma SortedKeysEndpoints(xs: seq<int>)
    requires |xs| > 0
    ensures |SortedKeys(xs)| > 0
    ensures SortedKeys(xs)[0] == SeqMin(xs)
    ensures SortedKeys(xs)[|SortedKeys(xs)| - 1] == SeqMax(xs)
    ensures |SortedKeys(xs)| >= 2 <==> SeqMin(xs) < SeqMax(xs)
  {
    var keys := SortedKeys(xs);
    var hi := SeqMax(xs);
    assert hi in keys;
    var i :| 0 <= i < |keys| && keys[i] == hi;
    var last := keys[|keys| - 1];
    assert last in keys;
    LastIsGreatest(keys);
    assert last == hi;
    assert |keys| >= 2 ==> keys[0] < last;
  }

  lemma LastIsGreatest(s: seq<int>)
    requires StrictlyIncreasing(s) && |s| > 0
    ensures forall j :: 0 <= j < |s| ==> s[j] <= s[|s| - 1]
  {
    forall j | 0 <= j < |s| ensures s[j] <= s[|s| - 1] {
      if j < |s| - 1 {
        assert s[j] < s[|s| - 1];
      }
    }
  }

  /** Adding a value that lies strictly between two values of a column
      changes neither its least nor its greatest value. */
  lemma InteriorKeepsExtremes(xs: seq<int>, ys: seq<int>, x: int, a: int, b: int)
    requires forall y :: y in ys <==> y in xs || y == x
    requires a in xs && b in xs && a < x < b
    ensures |xs| > 0 && |ys| > 0
    ensures SeqMin(ys) == SeqMin(xs) && SeqMax(ys) == SeqMax(xs)
  {
    assert a in ys;
    var lo, hi := SeqMin(xs), SeqMax(xs);
    assert lo <= a && b <= hi;
    assert lo in ys && hi in ys;
    assert SeqMin(ys) <= a && b <= SeqMax(ys);
    assert SeqMin(ys) in xs && SeqMax(ys) in xs;
  }
}
