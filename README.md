# Student Performance Index — a Dafny model

The dashboard scores each student with a Student Performance Index (SPI). The model covers two pieces of it.

**The engine** takes one student's assessment rows. It returns a final score in 0..100, one of four status bands (EXCELLENT, SATISFACTORY, AT RISK, CRITICAL), the band's colour and a breakdown of every intermediate quantity. The score is computed as follows:

- A weighted base: 60% of the mean assessment score, 25% of the mean attendance, and 15% of a participation figure. That figure is the mean raised-hand count rescaled so that 30 hands is 100, capped at 100.
- Minus a step penalty for failed courses: 0 when none fail, 5 for one, 10 for two or more. A course fails when its mean score is strictly below the passing score.
- Minus 5 when the mean score of the last assessment number is more than 10 points below that of the first.
- Clamped to 0..100.

**The risk overview** runs the engine once per student. It merges the results onto a per-student summary and flags a student at risk when the status is AT RISK or CRITICAL. It then counts the at-risk students per class level, the at-risk students overall and the passing students.

Files and modules:

- `records.dfy` (module `Records`) — the assessment row, column sums and means, and the groups that `groupby` forms. It also holds the sorted key index of an integer column: first key the least value, last key the greatest.
- `spi.dfy` (module `Spi`) — the engine as pure functions.
- `spi_properties.dfy` (module `SpiProperties`) — lemmas about the engine and worked scenarios:
  - range of the base score
  - the trend looks only at the endpoint assessment numbers
  - monotonicity in the scores
- `cohort.dfy` (module `Cohort`) — the per-student loop and the risk overview, as methods proved against functions.

Python floats are modelled as Dafny `real`. Python's two-argument `min` and `max` keep the first argument on ties, and are modelled that way.

Monotonicity in the scores holds for every non-negative raise, including one that moves a course across the passing score, because raising scores can only shrink the set of failed courses (`SpiProperties.ScoreMonotone`).

## Model

| member | source | states |
|---|---|---|
| Records.MeanAtLeast | main.py:123-128 | a column mean is at least any lower bound of the averaged values |
| Records.MeanAtMost | main.py:123-128 | a column mean is at most any upper bound of the averaged values |
| Records.RowsOfCourseMembers | main.py:140 | the rows of a course group are exactly the rows carrying that course name, each kept as many times as it occurs |
| Records.RowsAtMembers | main.py:151 | the rows of an assessment group are exactly the rows carrying that assessment number, each kept as many times as it occurs |
| Records.RowsOfStudentMembers | main.py:550 | the rows selected for a student are exactly the rows carrying that student id, each kept as many times as it occurs |
| Records.CourseGroupNonEmpty | main.py:140 | every course that occurs has a non-empty group, so its mean is defined |
| Records.AssessmentGroupNonEmpty | main.py:151 | every assessment number that occurs has a non-empty group |
| Records.StudentGroupNonEmpty | main.py:549-551 | every student id that occurs selects at least one row, so the engine's precondition holds |
| Records.SortedKeys | main.py:151 | the groupby index is strictly increasing and holds exactly the values of the column |
| Records.KeyCount | main.py:566 | the number of groupby keys is the number of distinct values |
| Records.SortedKeysEndpoints | main.py:156-158 | the first key is the least value and the last the greatest; there are two or more keys iff those differ |
| Records.InteriorKeepsExtremes | main.py:156-158 | adding a value strictly between two existing values changes neither the least nor the greatest |
| Spi.NormalizedEngagement | main.py:132-134 | participation is at most 100; it equals mean/30*100 when the mean is at most 30, is 100 at or above 30, and is non-negative for a non-negative mean |
| Spi.FailurePenalty | main.py:143-148 | penalty 0 iff no course fails, 5 iff exactly one, 10 iff two or more |
| Spi.TrendPenalty | main.py:160-161 | penalty 5 iff the change is below -10, else 0 |
| Spi.Clamp | main.py:165 | the result is in 0..100, equals its input inside that range, and is 0 below and 100 above it |
| Spi.Classify | main.py:168-179 | EXCELLENT iff >= 80, SATISFACTORY iff in [65,80), AT RISK iff in [50,65), CRITICAL iff < 50; each band is closed below |
| Spi.StudentPerformanceIndex | main.py:107-194 | score in 0..100 equal to clamp(base - failure penalty - trend penalty); base = 0.6·mean score + 0.25·mean attendance + 0.15·normalised engagement, each component reported as computed; penalties in {0,5,10} and {0,5}; status and colour from the clamped score (full list below) |
| SpiProperties.BaseSpiInRange | main.py:123-137 | with scores and attendance in 0..100 and non-negative hand counts, the base before penalties is in 0..100 |
| SpiProperties.NoTrendWithOneAssessmentNo | main.py:151-158 | with a single assessment number there is one group, the change is 0 and there is no trend penalty |
| SpiProperties.PerformanceChangeEndpoints | main.py:155-158 | with least number `first` < greatest `last`, there are two or more groups and the change is mean(last) - mean(first) |
| SpiProperties.RowsAtConcat | main.py:151 | the assessment group of a concatenation is the concatenation of the groups |
| SpiProperties.RowsAtInsert | main.py:151 | inserting a row with another assessment number leaves a group unchanged |
| SpiProperties.TrendIgnoresInterior | main.py:151-161 | inserting a row whose assessment number lies strictly between two existing ones changes neither the change nor the trend penalty |
| SpiProperties.MeanRaised | main.py:123-132 | adding delta to every score adds delta to the mean score and leaves the other means unchanged |
| SpiProperties.FailedCoursesShrink | main.py:140-141 | raising every score by delta >= 0 fails only courses that already failed, so the count cannot grow |
| SpiProperties.PerformanceChangeRaised | main.py:151-158 | raising every score by the same amount leaves the performance change unchanged |
| SpiProperties.BaseSpiRaised | main.py:123-137 | raising every score by delta raises the base by 0.6 * delta |
| SpiProperties.ScoreMonotone | main.py:122-165 | raising every score by delta >= 0 never lowers the final score |
| SpiProperties.ScenarioExcellent | main.py:107-194 | two assessments at 90, attendance 100, 30 hands: components 54/25/15, no penalty, score 94, EXCELLENT |
| SpiProperties.ScenarioOneFailedCourse | main.py:140-148 | one course at mean 40 and one at 90 with passing score 60: one failed course, penalty 5 |
| SpiProperties.ScenarioMeanAtPassingScore | main.py:140-148 | a course whose mean equals the passing score does not fail |
| SpiProperties.ScenarioFallingTrend | main.py:151-161 | assessment means 80, 85, 60: the change is -20 and the trend penalty is 5 |
| Cohort.AtRiskIffBelowSatisfactory | main.py:563 | the status label is AT RISK or CRITICAL iff the score is below 65 |
| Cohort.SummaryOfStudent | main.py:548-563 | a student's summary line carries the student's id, an index in 0..100, and the at-risk flag iff that index is below 65 |
| Cohort.StudentCount | main.py:566 | the number of students the loop visits is the number of distinct student ids |
| Cohort.CountAtRisk | main.py:567 | the at-risk count is at most the number of students |
| Cohort.CountPassing | main.py:568 | the passing count is at most the number of students |
| Cohort.AtRiskAndPassingPartition | main.py:566-568 | at-risk and passing counts add up to the number of students |
| Cohort.AtRiskInClass | main.py:565 | the at-risk count of one class level is at most the at-risk count overall |
| Cohort.AtRiskByClass | main.py:565 | the per-class table has exactly the class levels with at least one at-risk student, each mapped to that level's at-risk count |
| Cohort.IndexStudents | main.py:548-557 | one index result per student, in ascending id order, each the engine's result on that student's rows |
| Cohort.RiskOverview | main.py:539-568 | one summary per distinct student in id order, at risk iff index below 65, the per-class table is the at-risk count of each class level, and passing + at-risk totals equal the number of distinct students (full list below) |

`Spi.StudentPerformanceIndex` ensures the following:

- The score is in 0..100.
- The status is `Classify(score)` and the colour is that band's colour.
- `failurePenalty` is in {0,5,10} and is `FailurePenalty` of the number of failed courses.
- `trendPenalty` is in {0,5} and is `TrendPenalty` of the performance change.
- The base is the sum of the three components, and equals `BaseSpi(rows)`.
- The score is `Clamp(base - failurePenalty - trendPenalty)`.
- `failedCourses` counts the courses whose mean is strictly below the passing score.
- `performanceTrend` is `PerformanceChange(rows)`.
- Normalised engagement is `NormalizedEngagement` of the mean raised-hand count, and so at most 100.
- The academic, attendance and engagement components are 0.60 × the mean score, 0.25 × the mean attendance and 0.15 × the normalised engagement.

`Cohort.RiskOverview` ensures the following:

- It produces one summary per distinct student, in ascending id order. Each summary is the means of that student's rows merged with the engine's result.
- Each summary's index is in 0..100.
- A student is flagged at risk iff the index is below 65.
- The per-class table is `AtRiskByClass(students)`: exactly the class levels with an at-risk student, each mapped to its at-risk count. Every count is positive and at most the at-risk total.
- `totalStudents` is the number of distinct ids.
- The at-risk total and the passing total are the counts over the summaries, and they add up to `totalStudents`.

## Left out

- Page layout, styling, charts and every Streamlit widget: presentation only.
- CSV loading, caching and the whitespace trimming of string columns: I/O and data preparation that happen before the engine runs.
- The date header, avatars, the student selector, the `pd.cut` binning of charts, the textual insights and recommendations, and the status pie built from `value_counts`: UI text and charts outside the index.
- Floating-point rounding: scores, means and weights are exact reals, so results that a float computation would round differently are not distinguished.
- NaN: the engine requires a non-empty row sequence, because pandas returns NaN for the mean of no rows. Every call site in the dashboard passes the rows of an id taken from the data or checks for rows first (main.py:549-550, 654-655, 730), so the empty case never reaches the engine.
- Spi.StudentPerformanceIndex: the passing score is a parameter. The dashboard always passes its constant 60, and the scenarios use 60.
- Cohort.RiskOverview: the per-class table is a map from class level to count instead of a DataFrame. The `first` aggregation of class level and name is the first row of the student's rows, because the model has no missing values.
- The `groupby` / `merge` machinery itself is not modelled. Groups are filters over the row sequence, and a groupby index is the sorted sequence of distinct keys.
