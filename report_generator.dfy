/**
 * The printable report card (`components/ReportGenerator.tsx`): one table row
 * per subject with a letter grade and a pass/retake status, and the report
 * number shown in the header.
 */
module ReportGenerator {
  import opened Types
  import Strings

  /** 'A+' from 90, 'A' from 80, 'B' from 70, otherwise 'C'. */
  function LetterGrade(s: real): (g: string)
    ensures g == "A+" <==> s >= 90.0
    ensures g == "A" <==> 80.0 <= s < 90.0
    ensures g == "B" <==> 70.0 <= s < 80.0
    ensures g == "C" <==> s < 70.0
  {
    if s >= 90.0 then "A+" else if s >= 80.0 then "A" else if s >= 70.0 then "B" else "C"
  }

  /** The order of the letters, lowest first. */
  function LetterRank(g: string): nat {
    if g == "A+" then 3 else if g == "A" then 2 else if g == "B" then 1 else 0
  }

  /** A higher score never receives a lower letter. */
  lemma LetterGradeMonotone(a: real, b: real)
    requires a <= b
    ensures LetterRank(LetterGrade(a)) <= LetterRank(LetterGrade(b))
  {
  }

  /** 'PASSED' from 60, otherwise 'RETAKE'. */
  function Status(s: real): (st: string)
    ensures st == "PASSED" || st == "RETAKE"
    ensures st == "PASSED" <==> s >= 60.0
  {
    if s >= 60.0 then "PASSED" else "RETAKE"
  }

  /** Every 'A+', 'A' or 'B' passes; only a 'C' can be a retake. */
  lemma HigherLettersPass(s: real)
    ensures LetterGrade(s) != "C" ==> Status(s) == "PASSED"
    ensures Status(s) == "RETAKE" ==> LetterGrade(s) == "C"
  {
  }

  /** 'C' covers both statuses: 60 to 69 passes, below 60 is a retake. */
  lemma LetterCSpansBothStatuses()
    ensures LetterGrade(65.0) == "C" && Status(65.0) == "PASSED"
    ensures LetterGrade(59.0) == "C" && Status(59.0) == "RETAKE"
  {
  }

  datatype Row = Row(subject: string, score: real, grade: string, status: string)

  /** `Object.entries(student.grades).map(...)`: one row per subject key, in key order. */
  function ReportRows(grades: seq<Grade>): (rows: seq<Row>)
    ensures |rows| == |grades|
    ensures forall i :: 0 <= i < |rows| ==> rows[i].subject == grades[i].subject && rows[i].score == grades[i].score
    ensures forall i :: 0 <= i < |rows| ==> (rows[i].status == "PASSED" <==> grades[i].score >= 60.0)
    ensures forall i :: 0 <= i < |rows| ==> rows[i].status == Status(grades[i].score)
    ensures forall i :: 0 <= i < |rows| ==> rows[i].grade == LetterGrade(grades[i].score)
  {
    seq(|grades|, i requires 0 <= i < |grades| =>
      Row(grades[i].subject, grades[i].score, LetterGrade(grades[i].score), Status(grades[i].score)))
  }

  /** A higher score in one row never has a lower letter than a lower score in another. */
  lemma RowsOrderedByScore(grades: seq<Grade>, i: nat, j: nat)
    requires i < |grades| && j < |grades| && grades[i].score <= grades[j].score
    ensures LetterRank(ReportRows(grades)[i].grade) <= LetterRank(ReportRows(grades)[j].grade)
  {
    LetterGradeMonotone(grades[i].score, grades[j].score);
  }

  /** `#SR-` followed by the student id in upper case. */
  function ReportNumber(studentId: string): (r: string)
    ensures |r| == |studentId| + 4 && r[..4] == "#SR-"
    ensures forall i :: 4 <= i < |r| ==> !Strings.IsLowerAscii(r[i])
    ensures forall i :: 0 <= i < |studentId| ==> r[i + 4] == Strings.UpperChar(studentId[i])
    ensures forall i :: 0 <= i < |studentId| && Strings.IsLowerAscii(studentId[i]) ==> r[i + 4] as int == studentId[i] as int - 32
    ensures forall i :: 0 <= i < |studentId| && !Strings.IsLowerAscii(studentId[i]) ==> r[i + 4] == studentId[i]
  {
    "#SR-" + Strings.ToUpper(studentId)
  }

  /** Ids that differ only in letter case share a report number. */
  lemma ReportNumberIgnoresCase(studentId: string)
    ensures ReportNumber(Strings.ToUpper(studentId)) == ReportNumber(studentId)
  {
    Strings.ToUpperIdempotent(studentId);
  }
}
