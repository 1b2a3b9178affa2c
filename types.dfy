/**
 * The records of the dashboard's single stored state (`types.ts`).
 * Numbers the source keeps as JavaScript numbers are `int` where they are
 * always whole (durations, pass marks, option indexes, timestamps) and
 * `real` where they are scores.
 */
module Types {
  import opened Wrappers

  datatype UserRole = TeacherRole | StudentRole

  datatype ReportSettings = ReportSettings(
    schoolName: string,
    period: string,
    city: string,
    signatoryTitle: string)

  /** One entry of a student's `grades: Record<string, number>`, kept in insertion order. */
  datatype Grade = Grade(subject: string, score: real)

  /** `class` is a Dafny keyword, so the student's class is `className`. */
  datatype Student = Student(
    id: string,
    name: string,
    nis: string,
    email: string,
    className: string,
    grades: seq<Grade>)

  datatype Question = Question(
    id: string,
    text: string,
    options: seq<string>,
    correctAnswer: int)

  datatype Exam = Exam(
    id: string,
    title: string,
    subject: string,
    kkm: Option<int>,
    duration: int,             // minutes
    questions: seq<Question>,
    active: bool,
    targetClasses: Option<seq<string>>)

  datatype ExamResult = ExamResult(
    studentId: string,
    examId: string,
    score: real,
    cheated: bool,
    timestamp: int)

  datatype Assignment = Assignment(
    id: string,
    title: string,
    description: string,
    deadline: string)

  datatype SubmissionStatus = Pending | Graded

  datatype Submission = Submission(
    id: string,
    studentId: string,
    subject: string,
    description: string,
    timestamp: int,
    score: Option<real>,
    status: SubmissionStatus)

  /** The one state object; the stored copy has no role (`null`), the dashboards see the current one. */
  datatype AppState = AppState(
    userRole: Option<UserRole>,
    students: seq<Student>,
    exams: seq<Exam>,
    results: seq<ExamResult>,
    assignments: seq<Assignment>,
    submissions: seq<Submission>,
    reportSettings: ReportSettings)
}
