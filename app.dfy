/**
 * The application shell (`App.tsx`): the stored state, the partial-update
 * merge every dashboard reports its changes through, the current role and
 * which screen is shown.
 */
module App {
  import opened Wrappers
  import opened Types

  /** `Partial<AppState>`: each key may be present or absent. */
  datatype Patch = Patch(
    userRole: Option<Option<UserRole>>,
    students: Option<seq<Student>>,
    exams: Option<seq<Exam>>,
    results: Option<seq<ExamResult>>,
    assignments: Option<seq<Assignment>>,
    submissions: Option<seq<Submission>>,
    reportSettings: Option<ReportSettings>)

  /** `{}` */
  const EmptyPatch := Patch(None, None, None, None, None, None, None)

  /** `updateState(newState)`: `{ ...prev, ...newState }`. */
  function UpdateState(prev: AppState, p: Patch): (r: AppState)
    ensures p.userRole.Some? ==> r.userRole == p.userRole.value
    ensures p.students.Some? ==> r.students == p.students.value
    ensures p.exams.Some? ==> r.exams == p.exams.value
    ensures p.results.Some? ==> r.results == p.results.value
    ensures p.assignments.Some? ==> r.assignments == p.assignments.value
    ensures p.submissions.Some? ==> r.submissions == p.submissions.value
    ensures p.reportSettings.Some? ==> r.reportSettings == p.reportSettings.value
    ensures p.userRole.None? ==> r.userRole == prev.userRole
    ensures p.students.None? ==> r.students == prev.students
    ensures p.exams.None? ==> r.exams == prev.exams
    ensures p.results.None? ==> r.results == prev.results
    ensures p.assignments.None? ==> r.assignments == prev.assignments
    ensures p.submissions.None? ==> r.submissions == prev.submissions
    ensures p.reportSettings.None? ==> r.reportSettings == prev.reportSettings
  {
    AppState(
      p.userRole.GetOr(prev.userRole),
      p.students.GetOr(prev.students),
      p.exams.GetOr(prev.exams),
      p.results.GetOr(prev.results),
      p.assignments.GetOr(prev.assignments),
      p.submissions.GetOr(prev.submissions),
      p.reportSettings.GetOr(prev.reportSettings))
  }

  /** `{ ...p, ...q }`: the keys of both, `q` winning where both are present. */
  function ThenPatch(p: Patch, q: Patch): Patch {
    Patch(
      if q.userRole.Some? then q.userRole else p.userRole,
      if q.students.Some? then q.students else p.students,
      if q.exams.Some? then q.exams else p.exams,
      if q.results.Some? then q.results else p.results,
      if q.assignments.Some? then q.assignments else p.assignments,
      if q.submissions.Some? then q.submissions else p.submissions,
      if q.reportSettings.Some? then q.reportSettings else p.reportSettings)
  }

  /** The empty patch changes nothing. */
  lemma EmptyPatchIdentity(s: AppState)
    ensures UpdateState(s, EmptyPatch) == s
  {
  }

  /** Two updates in a row are one update with the combined patch. */
  lemma UpdateStateCompose(s: AppState, p: Patch, q: Patch)
    ensures UpdateState(UpdateState(s, p), q) == UpdateState(s, ThenPatch(p, q))
  {
  }

  /** Applying the same patch twice is applying it once. */
  lemma UpdateStateIdempotent(s: AppState, p: Patch)
    ensures UpdateState(UpdateState(s, p), p) == UpdateState(s, p)
  {
    UpdateStateCompose(s, p, p);
    assert ThenPatch(p, p) == p;
  }

  /** What the shell keeps: the stored state and the role chosen at login (`null` before). */
  datatype Shell = Shell(state: AppState, currentRole: Option<UserRole>)

  /** What the shell renders; each dashboard receives its state as props. */
  datatype Screen = LoginScreen | TeacherScreen(props: AppState) | StudentScreen(props: AppState)

  /**
   * No role: the login screen. Otherwise the dashboard for the role, given the
   * stored state with `userRole` replaced by the current role.
   */
  function Render(sh: Shell): (v: Screen)
    ensures v.LoginScreen? <==> sh.currentRole.None?
    ensures v.TeacherScreen? <==> sh.currentRole == Some(TeacherRole)
    ensures v.StudentScreen? <==> sh.currentRole == Some(StudentRole)
    ensures !v.LoginScreen? ==> v.props == sh.state.(userRole := sh.currentRole)
  {
    match sh.currentRole
    case None => LoginScreen
    case Some(TeacherRole) => TeacherScreen(sh.state.(userRole := sh.currentRole))
    case Some(StudentRole) => StudentScreen(sh.state.(userRole := sh.currentRole))
  }

  /** The login screen's `onSelectRole`. */
  function SelectRole(sh: Shell, role: UserRole): (r: Shell)
    ensures r.currentRole == Some(role) && r.state == sh.state
  {
    sh.(currentRole := Some(role))
  }

  /** `onUpdate` as the dashboards see it: the stored state is merged with the patch. */
  function Update(sh: Shell, p: Patch): (r: Shell)
    ensures r.currentRole == sh.currentRole
    ensures r.state == UpdateState(sh.state, p)
  {
    sh.(state := UpdateState(sh.state, p))
  }

  /** `handleLogout`: the role is cleared and the stored state is kept. */
  function HandleLogout(sh: Shell): (r: Shell)
    ensures r.currentRole.None? && r.state == sh.state
  {
    sh.(currentRole := None)
  }

  /** After logout the login screen shows, and logging back in sees the same state. */
  lemma LogoutThenLogin(sh: Shell, role: UserRole)
    ensures Render(HandleLogout(sh)).LoginScreen?
    ensures Render(SelectRole(HandleLogout(sh), role)).props == sh.state.(userRole := Some(role))
  {
  }

  /**
   * A dashboard's update that carries no role leaves the role it sees alone:
   * the state it is re-rendered with is its old props merged with the patch.
   */
  lemma UpdateSeenByDashboard(sh: Shell, p: Patch)
    requires sh.currentRole.Some? && p.userRole.None?
    ensures Render(Update(sh, p)).props == UpdateState(Render(sh).props, p)
  {
  }
}
