/**
 * The teacher's dashboard (`components/TeacherDashboard.tsx`): the CSV import
 * of students, the exam form and its save, publishing, deleting, the report
 * settings, the class list of the report tab and a student's grade average.
 *
 * Handlers that only compute a change to the shared state are functions from
 * the state the dashboard was given to the state after `onUpdate` merged
 * their patch; the component's own `useState` cells live in the class at
 * the end, whose methods are the handlers that change them.
 */
module TeacherDashboard {
  import opened Wrappers
  import opened Types
  import opened Strings
  import opened Seqs
  import Stats
  import App
  import StudentDashboard

  // ---------------------------------------------------------------- CSV import

  const DefaultName := "New Student"
  const DefaultNis := "00000"
  const DefaultEmailUser := "student"
  const EmailDomain := "@edu.com"
  const DefaultClass := "Unassigned"

  /** Every imported student starts with these three subjects at zero. */
  const ZeroGrades := [Grade("Math", 0.0), Grade("Science", 0.0), Grade("English", 0.0)]

  /** Non-empty and without white space at either end, as `trim()` leaves a value. */
  predicate Clean(f: string) {
    f != [] && !IsSpace(f[0]) && !IsSpace(f[|f| - 1])
  }

  /** The lines the import keeps: `l.trim() && l.includes(',')`. */
  predicate IsStudentLine(line: string) {
    Trim(line) != "" && ',' in line
  }

  /** `parts[k]?.trim()`, with a missing piece read as the empty (falsy) string. */
  function Field(parts: seq<string>, k: nat): string {
    if k < |parts| then Trim(parts[k]) else ""
  }

  /** `v || d` for a string `v`. */
  function OrDefault(v: string, d: string): string {
    if v == "" then d else v
  }

  /** A trimmed piece, or the default `d` when it is blank or missing. */
  function FieldOr(parts: seq<string>, k: nat, d: string): (f: string)
    requires Clean(d)
    ensures Clean(f)
    ensures Field(parts, k) == "" ==> f == d
    ensures Field(parts, k) != "" ==> f == Field(parts, k)
  {
    OrDefault(Field(parts, k), d)
  }

  lemma DefaultsClean()
    ensures Clean(DefaultName) && Clean(DefaultNis) && Clean(DefaultEmailUser) && Clean(DefaultClass)
  {
    assert Clean("New Student");
    assert Clean("00000");
    assert Clean("student");
    assert Clean("Unassigned");
  }

  lemma EndsWithDomain(user: string)
    ensures |user + EmailDomain| > |EmailDomain|
    ensures (user + EmailDomain)[|user + EmailDomain| - |EmailDomain|..] == EmailDomain
    requires user != []
  {
  }

  /**
   * One CSV line turned into a student: `name,nis,class`, each piece trimmed,
   * a blank or missing piece replaced by its default, pieces after the third
   * ignored. The address is built from the NIS piece, falling back to
   * "student" (not to the default NIS).
   */
  function ParseLine(line: string, id: string): (st: Student)
    ensures st.id == id && st.grades == ZeroGrades
    ensures Clean(st.name) && Clean(st.nis) && Clean(st.className)
    ensures |st.email| > |EmailDomain| && st.email[|st.email| - |EmailDomain|..] == EmailDomain
    ensures st.email == (if Field(Split(line, ','), 1) == "" then DefaultEmailUser else st.nis) + EmailDomain
    ensures st.name == OrDefault(Field(Split(line, ','), 0), DefaultName)
    ensures st.nis == OrDefault(Field(Split(line, ','), 1), DefaultNis)
    ensures st.className == OrDefault(Field(Split(line, ','), 2), DefaultClass)
  {
    var parts := Split(line, ',');
    DefaultsClean();
    var user := FieldOr(parts, 1, DefaultEmailUser);
    EndsWithDomain(user);
    Student(id, FieldOr(parts, 0, DefaultName), FieldOr(parts, 1, DefaultNis), user + EmailDomain,
            FieldOr(parts, 2, DefaultClass), ZeroGrades)
  }

  /**
   * `processCsvData`'s list of new students: one per kept line, in order,
   * the i-th getting the i-th generated id.
   */
  function ParseCsv(content: string, ids: nat -> string): (r: seq<Student>)
    ensures |r| == Count(Split(content, '\n'), IsStudentLine)
    ensures forall i :: 0 <= i < |r| ==> r[i].id == ids(i) && r[i].grades == ZeroGrades
    ensures var kept := Filter(Split(content, '\n'), IsStudentLine);
      |kept| == |r| && forall i :: 0 <= i < |r| ==> r[i] == ParseLine(kept[i], ids(i))
  {
    var lines := Filter(Split(content, '\n'), IsStudentLine);
    FilterLength(Split(content, '\n'), IsStudentLine);
    seq(|lines|, i requires 0 <= i < |lines| => ParseLine(lines[i], ids(i)))
  }

  /** The state after an import: new students appended after the old ones, nothing else touched. */
  function ImportCsv(s: AppState, content: string, ids: nat -> string): (r: AppState)
    ensures r == s.(students := s.students + ParseCsv(content, ids))
    ensures |r.students| == |s.students| + Count(Split(content, '\n'), IsStudentLine)
    ensures r.students[..|s.students|] == s.students
  {
    var added := ParseCsv(content, ids);
    if |added| > 0 then App.UpdateState(s, App.EmptyPatch.(students := Some(s.students + added)))
    else
      assert s.students + added == s.students;
      s
  }

  /** A value that survives the CSV round trip: clean and free of both separators. */
  predicate CsvField(f: string) {
    Clean(f) && ',' !in f && '\n' !in f
  }

  datatype CsvRow = CsvRow(name: string, nis: string, className: string)

  function RowLine(r: CsvRow): string {
    Join([r.name, r.nis, r.className], ',')
  }

  function RowLines(rows: seq<CsvRow>): seq<string> {
    seq(|rows|, i requires 0 <= i < |rows| => RowLine(rows[i]))
  }

  /** The file a spreadsheet would save for `rows`. */
  function ToCsv(rows: seq<CsvRow>): string {
    Join(RowLines(rows), '\n')
  }

  /** Clean rows: every field survives the round trip. */
  predicate CleanRows(rows: seq<CsvRow>) {
    forall i :: 0 <= i < |rows| ==> CsvField(rows[i].name) && CsvField(rows[i].nis) && CsvField(rows[i].className)
  }

  /** The student a clean row is read as. */
  function RowStudent(r: CsvRow, id: string): Student {
    Student(id, r.name, r.nis, r.nis + EmailDomain, r.className, ZeroGrades)
  }

  function RowStudents(rows: seq<CsvRow>, ids: nat -> string): seq<Student> {
    seq(|rows|, i requires 0 <= i < |rows| => RowStudent(rows[i], ids(i)))
  }

  lemma TrimClean(f: string)
    requires Clean(f)
    ensures Trim(f) == f
  {
    TrimOfTrimmed(f);
  }

  /** A part free of a character, joined with a different separator, stays free of it. */
  lemma {:induction false} JoinWithout(parts: seq<string>, sep: char, c: char)
    requires c != sep
    requires forall i :: 0 <= i < |parts| ==> c !in parts[i]
    ensures c !in Join(parts, sep)
  {
    if |parts| > 1 {
      JoinWithout(parts[1..], sep, c);
    }
  }

  /** A row of three clean fields is read back as exactly those fields. */
  lemma ParseRowLine(r: CsvRow, id: string)
    requires CsvField(r.name) && CsvField(r.nis) && CsvField(r.className)
    ensures IsStudentLine(RowLine(r))
    ensures '\n' !in RowLine(r)
    ensures ParseLine(RowLine(r), id) == RowStudent(r, id)
  {
    var parts := [r.name, r.nis, r.className];
    SplitJoin(parts, ',');
    assert parts[1..] == [r.nis, r.className] && parts[1..][1..] == [r.className];
    assert Join(parts[1..][1..], ',') == r.className;
    assert Join(parts[1..], ',') == r.nis + [','] + r.className;
    assert RowLine(r) == r.name + [','] + (r.nis + [','] + r.className);
    assert ',' in RowLine(r) by {
      assert RowLine(r)[|r.name|] == ',';
    }
    assert !AllSpace(RowLine(r)) by {
      assert RowLine(r)[0] == r.name[0];
    }
    JoinWithout(parts, ',', '\n');
    TrimClean(r.name);
    TrimClean(r.nis);
    TrimClean(r.className);
  }

  /** Importing the CSV text of clean rows adds exactly those rows, in order. */
  lemma CsvRoundTrip(rows: seq<CsvRow>, ids: nat -> string)
    requires CleanRows(rows)
    ensures ParseCsv(ToCsv(rows), ids) == RowStudents(rows, ids)
  {
    KeptLines(rows);
    var p := ParseCsv(ToCsv(rows), ids);
    assert |p| == |rows|;
    forall i | 0 <= i < |rows| ensures p[i] == RowStudents(rows, ids)[i] {
      ParsedRow(rows, ids, i);
    }
  }

  lemma ParsedRow(rows: seq<CsvRow>, ids: nat -> string, i: nat)
    requires i < |rows| && CleanRows(rows)
    requires Filter(Split(ToCsv(rows), '\n'), IsStudentLine) == RowLines(rows)
    ensures ParseCsv(ToCsv(rows), ids)[i] == RowStudent(rows[i], ids(i))
  {
    ParseRowLine(rows[i], ids(i));
  }

  /** The import keeps every line of a file of clean rows. */
  lemma KeptLines(rows: seq<CsvRow>)
    requires CleanRows(rows)
    ensures Filter(Split(ToCsv(rows), '\n'), IsStudentLine) == RowLines(rows)
  {
    var lines := RowLines(rows);
    forall i | 0 <= i < |rows| ensures IsStudentLine(lines[i]) && '\n' !in lines[i] {
      ParseRowLine(rows[i], "");
    }
    if |rows| == 0 {
      assert Split(ToCsv(rows), '\n') == [""];
      assert !IsStudentLine("");
    } else {
      SplitJoin(lines, '\n');
      FilterKeepsAll(lines, IsStudentLine);
    }
  }

  /** A line with only a name and a comma gets the default NIS, address and class. */
  lemma ParseNameOnly(name: string, id: string)
    requires CsvField(name)
    ensures ParseLine(name + ",", id) == Student(id, name, DefaultNis, DefaultEmailUser + EmailDomain, DefaultClass, ZeroGrades)
  {
    assert name + "," == name + [','] + "";
    SplitPrefix(name, "", ',');
    var parts := Split(name + ",", ',');
    assert parts == [name, ""];
    TrimClean(name);
    assert Field(parts, 0) == name && Field(parts, 1) == "" && Field(parts, 2) == "";
  }

  lemma BlankField(parts: seq<string>, k: nat)
    requires forall i :: 0 <= i < |parts| ==> AllSpace(parts[i])
    ensures Field(parts, k) == ""
  {
    if k < |parts| {
      assert AllSpace(parts[k]);
    }
  }

  /** A line whose pieces are all blank, such as " , ", still adds a student, made of defaults only. */
  lemma ParseBlankLine(line: string, id: string)
    requires forall i :: 0 <= i < |Split(line, ',')| ==> AllSpace(Split(line, ',')[i])
    ensures ParseLine(line, id) == Student(id, DefaultName, DefaultNis, DefaultEmailUser + EmailDomain, DefaultClass, ZeroGrades)
  {
    var parts := Split(line, ',');
    BlankField(parts, 0);
    BlankField(parts, 1);
    BlankField(parts, 2);
  }

  /** Pieces after the third do not reach the student. */
  lemma ParseIgnoresExtraFields(line: string, extra: string, id: string)
    requires |Split(line, ',')| >= 3
    ensures ParseLine(line + "," + extra, id) == ParseLine(line, id)
  {
    var parts := Split(line, ',');
    assert line + "," + extra == line + [','] + extra;
    SplitAppend(line, extra, ',');
    var more := Split(line + "," + extra, ',');
    assert more[..3] == parts[..3];
    assert more[0] == parts[0] && more[1] == parts[1] && more[2] == parts[2];
    assert Field(more, 0) == Field(parts, 0) && Field(more, 1) == Field(parts, 1) && Field(more, 2) == Field(parts, 2);
  }

  /** The template offered for download, whose header line has a comma; the text is
      "Nama,NIS,Kelas\nAndi Pratama,12345,XII MIPA 1\nSiti Aminah,12346,XII MIPA 2", written here piece by piece. */
  const TemplateCsv := "Nama" + "," + "NIS" + "," + "Kelas" + "\n"
                     + "Andi Pratama" + "," + "12345" + "," + "XII MIPA 1" + "\n"
                     + "Siti Aminah" + "," + "12346" + "," + "XII MIPA 2"

  /** The template's three lines as rows. */
  const TemplateRows := [CsvRow("Nama", "NIS", "Kelas"), CsvRow("Andi Pratama", "12345", "XII MIPA 1"),
                         CsvRow("Siti Aminah", "12346", "XII MIPA 2")]

  lemma RowLineSpelled(r: CsvRow)
    ensures RowLine(r) == r.name + "," + r.nis + "," + r.className
  {
    var parts := [r.name, r.nis, r.className];
    assert parts[1..] == [r.nis, r.className] && parts[1..][1..] == [r.className];
    assert Join(parts[1..], ',') == r.nis + [','] + r.className;
  }

  /** The text of a three-row file, spelled out field by field. */
  lemma ThreeRowCsv(a: CsvRow, b: CsvRow, c: CsvRow)
    ensures ToCsv([a, b, c]) == a.name + "," + a.nis + "," + a.className + "\n"
                              + b.name + "," + b.nis + "," + b.className + "\n"
                              + c.name + "," + c.nis + "," + c.className
  {
    var lines := RowLines([a, b, c]);
    RowLineSpelled(a);
    RowLineSpelled(b);
    RowLineSpelled(c);
    assert lines == [RowLine(a), RowLine(b), RowLine(c)];
    assert lines[1..][1..] == [lines[2]];
    assert Join(lines[1..], '\n') == lines[1] + "\n" + lines[2];
    assert Join(lines, '\n') == lines[0] + "\n" + (lines[1] + "\n" + lines[2]);
  }

  lemma TemplateIsCsv()
    ensures ToCsv(TemplateRows) == TemplateCsv
  {
    ThreeRowCsv(TemplateRows[0], TemplateRows[1], TemplateRows[2]);
    assert TemplateRows == [TemplateRows[0], TemplateRows[1], TemplateRows[2]];
  }

  lemma TemplateRowsClean()
    ensures CleanRows(TemplateRows)
  {
    TemplateHeaderClean();
    TemplateFirstRowClean();
    TemplateSecondRowClean();
  }

  lemma TemplateHeaderClean()
    ensures CsvField("Nama") && CsvField("NIS") && CsvField("Kelas")
  {
  }

  lemma TemplateFirstRowClean()
    ensures CsvField("Andi Pratama") && CsvField("12345") && CsvField("XII MIPA 1")
  {
  }

  lemma TemplateSecondRowClean()
    ensures CsvField("Siti Aminah") && CsvField("12346") && CsvField("XII MIPA 2")
  {
  }

  /** Importing the downloaded template unchanged adds its header line as a student called "Nama". */
  lemma TemplateImportsHeaderRow(ids: nat -> string)
    ensures |ParseCsv(TemplateCsv, ids)| == 3
    ensures ParseCsv(TemplateCsv, ids)[0] == Student(ids(0), "Nama", "NIS", "NIS" + EmailDomain, "Kelas", ZeroGrades)
  {
    TemplateIsCsv();
    TemplateRowsClean();
    CsvRoundTrip(TemplateRows, ids);
    assert RowStudents(TemplateRows, ids)[0] == RowStudent(TemplateRows[0], ids(0));
  }

  // ------------------------------------------------- publishing and deleting

  function Toggled(e: Exam, id: string): Exam {
    if e.id == id then e.(active := !e.active) else e
  }

  /** `toggleExamStatus(id)`: every exam with that id flips its `active` flag, nothing else changes. */
  function ToggleExamStatus(s: AppState, id: string): (r: AppState)
    ensures r == s.(exams := r.exams) && |r.exams| == |s.exams|
    ensures forall i :: 0 <= i < |s.exams| ==>
      r.exams[i] == s.exams[i].(active := r.exams[i].active) &&
      (r.exams[i].active <==> (s.exams[i].active != (s.exams[i].id == id)))
  {
    var exams := seq(|s.exams|, i requires 0 <= i < |s.exams| => Toggled(s.exams[i], id));
    App.UpdateState(s, App.EmptyPatch.(exams := Some(exams)))
  }

  /** Pressing the button twice leaves the state as it was. */
  lemma ToggleTwice(s: AppState, id: string)
    ensures ToggleExamStatus(ToggleExamStatus(s, id), id) == s
  {
    var t := ToggleExamStatus(ToggleExamStatus(s, id), id);
    assert t.exams == s.exams;
  }

  /** Publishing an unpublished exam puts it on the students' list of exams to start. */
  lemma PublishedExamIsOffered(s: AppState, id: string, k: nat)
    requires k < |s.exams| && s.exams[k].id == id && !s.exams[k].active
    ensures s.exams[k].(active := true) in StudentDashboard.AvailableExams(ToggleExamStatus(s, id).exams)
  {
    var exams := ToggleExamStatus(s, id).exams;
    var e := exams[k];
    assert e == s.exams[k].(active := true);
    assert e in multiset(exams);
    assert multiset(StudentDashboard.AvailableExams(exams))[e] > 0;
  }

  function KeepStudent(id: string): Student -> bool {
    (st: Student) => st.id != id
  }

  function KeepExam(id: string): Exam -> bool {
    (e: Exam) => e.id != id
  }

  /**
   * `deleteStudent(id)` with the answer to its confirmation: on yes, every
   * student with that id goes and the rest keep their order; on no, nothing
   * changes. Other lists (the results included) are untouched either way.
   */
  function DeleteStudent(s: AppState, id: string, confirmed: bool): (r: AppState)
    ensures r == s.(students := r.students)
    ensures !confirmed ==> r == s
    ensures confirmed ==> forall i :: 0 <= i < |r.students| ==> r.students[i].id != id
    ensures confirmed ==> forall x: Student :: x.id != id ==> multiset(r.students)[x] == multiset(s.students)[x]
    ensures Subsequence(r.students, s.students)
  {
    if confirmed then
      FilterMultiset(s.students, KeepStudent(id));
      FilterSubsequence(s.students, KeepStudent(id));
      App.UpdateState(s, App.EmptyPatch.(students := Some(Filter(s.students, KeepStudent(id)))))
    else
      SubsequenceRefl(s.students);
      s
  }

  /**
   * `deleteExam(id)` with the answer to its confirmation. The dialog warns
   * that the exam's results go too, but only `exams` is patched: the results
   * stay in the state.
   */
  function DeleteExam(s: AppState, id: string, confirmed: bool): (r: AppState)
    ensures r == s.(exams := r.exams)
    ensures r.results == s.results
    ensures !confirmed ==> r == s
    ensures confirmed ==> forall i :: 0 <= i < |r.exams| ==> r.exams[i].id != id
    ensures confirmed ==> forall x: Exam :: x.id != id ==> multiset(r.exams)[x] == multiset(s.exams)[x]
    ensures Subsequence(r.exams, s.exams)
  {
    if confirmed then
      FilterMultiset(s.exams, KeepExam(id));
      FilterSubsequence(s.exams, KeepExam(id));
      App.UpdateState(s, App.EmptyPatch.(exams := Some(Filter(s.exams, KeepExam(id)))))
    else
      SubsequenceRefl(s.exams);
      s
  }

  lemma {:induction false} SubsequenceRefl<T>(a: seq<T>)
    ensures Subsequence(a, a)
  {
    if a != [] {
      SubsequenceRefl(a[1..]);
    }
  }

  /** Deleting the same student twice is the same as deleting once. */
  lemma DeleteStudentIdempotent(s: AppState, id: string)
    ensures DeleteStudent(DeleteStudent(s, id, true), id, true) == DeleteStudent(s, id, true)
  {
    FilterIdempotent(s.students, KeepStudent(id));
  }

  /** Deleting the same exam twice is the same as deleting once. */
  lemma DeleteExamIdempotent(s: AppState, id: string)
    ensures DeleteExam(DeleteExam(s, id, true), id, true) == DeleteExam(s, id, true)
  {
    FilterIdempotent(s.exams, KeepExam(id));
  }

  /** Deleting an id no student has changes nothing. */
  lemma DeleteAbsentStudent(s: AppState, id: string)
    requires forall i :: 0 <= i < |s.students| ==> s.students[i].id != id
    ensures DeleteStudent(s, id, true) == s
  {
    FilterKeepsAll(s.students, KeepStudent(id));
  }

  // ----------------------------------------------------------- report settings

  datatype SettingsField = SchoolName | Period | City | SignatoryTitle

  function Setting(rs: ReportSettings, f: SettingsField): string {
    match f
    case SchoolName => rs.schoolName
    case Period => rs.period
    case City => rs.city
    case SignatoryTitle => rs.signatoryTitle
  }

  /** `{ ...rs, [f]: v }` */
  function WithSetting(rs: ReportSettings, f: SettingsField, v: string): (r: ReportSettings)
    ensures Setting(r, f) == v
    ensures forall g :: g != f ==> Setting(r, g) == Setting(rs, g)
  {
    match f
    case SchoolName => rs.(schoolName := v)
    case Period => rs.(period := v)
    case City => rs.(city := v)
    case SignatoryTitle => rs.(signatoryTitle := v)
  }

  /** `updateReportSettings(field, value)`: that one setting takes the value, nothing else changes. */
  function UpdateReportSettings(s: AppState, f: SettingsField, v: string): (r: AppState)
    ensures r == s.(reportSettings := r.reportSettings)
    ensures Setting(r.reportSettings, f) == v
    ensures forall g :: g != f ==> Setting(r.reportSettings, g) == Setting(s.reportSettings, g)
  {
    App.UpdateState(s, App.EmptyPatch.(reportSettings := Some(WithSetting(s.reportSettings, f, v))))
  }

  /** A settings record is determined by its four fields. */
  lemma SettingsExtensional(a: ReportSettings, b: ReportSettings)
    requires forall g :: Setting(a, g) == Setting(b, g)
    ensures a == b
  {
    assert Setting(a, SchoolName) == Setting(b, SchoolName);
    assert Setting(a, Period) == Setting(b, Period);
    assert Setting(a, City) == Setting(b, City);
    assert Setting(a, SignatoryTitle) == Setting(b, SignatoryTitle);
  }

  /** Typing into the same input twice keeps the last value only. */
  lemma UpdateReportSettingsLastWins(s: AppState, f: SettingsField, v: string, w: string)
    ensures UpdateReportSettings(UpdateReportSettings(s, f, v), f, w) == UpdateReportSettings(s, f, w)
  {
    SettingsExtensional(UpdateReportSettings(UpdateReportSettings(s, f, v), f, w).reportSettings,
                        UpdateReportSettings(s, f, w).reportSettings);
  }

  /** Edits to two different inputs can happen in either order. */
  lemma UpdateReportSettingsCommute(s: AppState, f: SettingsField, g: SettingsField, v: string, w: string)
    requires f != g
    ensures UpdateReportSettings(UpdateReportSettings(s, f, v), g, w)
         == UpdateReportSettings(UpdateReportSettings(s, g, w), f, v)
  {
    SettingsExtensional(UpdateReportSettings(UpdateReportSettings(s, f, v), g, w).reportSettings,
                        UpdateReportSettings(UpdateReportSettings(s, g, w), f, v).reportSettings);
  }

  // ---------------------------------------------------------- classes, grades

  function ClassNames(students: seq<Student>): seq<string> {
    seq(|students|, i requires 0 <= i < |students| => students[i].className)
  }

  function InsertClass(xs: seq<string>, c: string): (r: seq<string>)
    requires StrictlySorted(xs)
    ensures StrictlySorted(r)
    ensures forall y :: y in r <==> (y in xs || y == c)
  {
    if xs == [] then [c]
    else if c == xs[0] then xs
    else if StrLess(c, xs[0]) then
      InsertFrontSorted(xs, c);
      [c] + xs
    else
      StrLessTotal(c, xs[0]);
      var rest := InsertClass(xs[1..], c);
      HeadBelowRest(xs, c, rest);
      [xs[0]] + rest
  }

  lemma InsertFrontSorted(xs: seq<string>, c: string)
    requires StrictlySorted(xs) && xs != [] && StrLess(c, xs[0])
    ensures StrictlySorted([c] + xs)
  {
    forall j | 0 < j < |xs| ensures StrLess(c, xs[j]) {
      StrLessTransitive(c, xs[0], xs[j]);
    }
  }

  lemma HeadBelowRest(xs: seq<string>, c: string, rest: seq<string>)
    requires StrictlySorted(xs) && xs != [] && StrLess(xs[0], c)
    requires StrictlySorted(rest)
    requires forall y :: y in rest <==> (y in xs[1..] || y == c)
    ensures StrictlySorted([xs[0]] + rest)
  {
    forall j | 0 <= j < |rest| ensures StrLess(xs[0], rest[j]) {
      assert rest[j] in rest;
      if rest[j] != c {
        var k :| 0 <= k < |xs[1..]| && xs[1..][k] == rest[j];
        assert StrLess(xs[0], xs[k + 1]);
      }
    }
  }

  /**
   * `Array.from(new Set(students.map(s => s.class))).sort()`: every class
   * that occurs, once each, in string order.
   */
  function Classes(students: seq<Student>): (r: seq<string>)
    ensures StrictlySorted(r)
    ensures forall c :: c in r <==> c in ClassNames(students)
  {
    if students == [] then []
    else
      assert ClassNames(students) == [students[0].className] + ClassNames(students[1..]);
      InsertClass(Classes(students[1..]), students[0].className)
  }

  /** No class is listed twice. */
  lemma ClassesDistinct(students: seq<Student>)
    ensures forall i, j :: 0 <= i < j < |Classes(students)| ==> Classes(students)[i] != Classes(students)[j]
  {
    var r := Classes(students);
    forall i, j | 0 <= i < j < |r| ensures r[i] != r[j] {
      StrLessIrreflexive(r[i]);
    }
  }

  /** Any sorted list of the occurring classes without repeats is the class list. */
  lemma ClassesUnique(students: seq<Student>, xs: seq<string>)
    requires StrictlySorted(xs)
    requires forall c :: c in xs <==> c in ClassNames(students)
    ensures xs == Classes(students)
  {
    StrictlySortedUnique(xs, Classes(students));
  }

  /** The report tab's roster: the students of the selected class, in list order. */
  function StudentsInClass(students: seq<Student>, cls: string): (r: seq<Student>)
    ensures forall i :: 0 <= i < |r| ==> r[i].className == cls
    ensures forall x: Student :: x.className == cls ==> multiset(r)[x] == multiset(students)[x]
    ensures Subsequence(r, students)
  {
    var inClass := (st: Student) => st.className == cls;
    FilterMultiset(students, inClass);
    FilterSubsequence(students, inClass);
    Filter(students, inClass)
  }

  /** Every listed class has at least one student on its roster. */
  lemma ListedClassHasStudents(students: seq<Student>, cls: string)
    requires cls in Classes(students)
    ensures |StudentsInClass(students, cls)| > 0
  {
    var i :| 0 <= i < |students| && students[i].className == cls;
    assert students[i] in multiset(students);
    assert multiset(StudentsInClass(students, cls))[students[i]] > 0;
  }

  function GradeScores(grades: seq<Grade>): seq<real> {
    seq(|grades|, i requires 0 <= i < |grades| => grades[i].score)
  }

  /** The report card's average: arithmetic mean of the subject scores, 0 with no subjects. */
  function GradeAverage(st: Student): (a: real)
    ensures |st.grades| == 0 ==> a == 0.0
    ensures |st.grades| > 0 ==> a * |st.grades| as real == Stats.Sum(GradeScores(st.grades))
  {
    Stats.Mean(GradeScores(st.grades))
  }

  /** Grades on the 0..100 scale average to a value on that scale. */
  lemma GradeAverageInRange(st: Student)
    requires forall i :: 0 <= i < |st.grades| ==> 0.0 <= st.grades[i].score <= 100.0
    ensures 0.0 <= GradeAverage(st) <= 100.0
  {
    if |st.grades| > 0 {
      Stats.MeanBounds(GradeScores(st.grades), 0.0, 100.0);
    }
  }

  lemma ZeroMean(xs: seq<real>)
    requires Stats.Sum(xs) == 0.0
    ensures Stats.Mean(xs) == 0.0
  {
  }

  /** A freshly imported student averages zero. */
  lemma ImportedStudentAveragesZero(line: string, id: string)
    ensures GradeAverage(ParseLine(line, id)) == 0.0
  {
    var sc := GradeScores(ZeroGrades);
    assert |sc| == 3 && sc[0] == 0.0 && sc[1] == 0.0 && sc[2] == 0.0;
    Stats.SumBounds(sc, 0.0, 0.0);
    ZeroMean(sc);
    assert ParseLine(line, id).grades == ZeroGrades;
  }

  // ----------------------------------------------------------------- exam form

  /** The `newExam` form: the six keys it always holds. */
  datatype ExamForm = ExamForm(
    title: string,
    subject: string,
    kkm: Option<int>,
    duration: int,
    questions: seq<Question>,
    targetClasses: seq<string>)

  /** The blank form the dashboard opens with and resets to. */
  const BlankForm := ExamForm("", "", Some(75), 60, [], ["UMUM"])

  /** `handleEditExam`'s copy of an exam into the form; no target classes become an empty list. */
  function FormOf(e: Exam): ExamForm {
    ExamForm(e.title, e.subject, e.kkm, e.duration, e.questions, e.targetClasses.GetOr([]))
  }

  /** `saveExam` goes ahead only with a title and at least one question. */
  predicate CanSave(f: ExamForm) {
    f.title != "" && |f.questions| != 0
  }

  /** `if (editingExamId)`: the empty id is falsy, so it saves as a new exam. */
  predicate IsEditing(editingId: Option<string>) {
    editingId.Some? && editingId.value != ""
  }

  /** `{ ...e, ...newExam }`: the six form keys overwrite, id and publication stay. */
  function EditedExam(e: Exam, f: ExamForm): (r: Exam)
    ensures r.id == e.id && r.active == e.active
    ensures FormOf(r) == f && r.targetClasses.Some?
  {
    e.(title := f.title, subject := f.subject, kkm := f.kkm, duration := f.duration,
       questions := f.questions, targetClasses := Some(f.targetClasses))
  }

  /** The new exam of the create branch: unpublished, with subject and duration defaults. */
  function CreatedExam(f: ExamForm, id: string): (r: Exam)
    ensures r.id == id && !r.active
    ensures r.title == f.title && r.kkm == f.kkm && r.questions == f.questions
    ensures r.targetClasses == Some(f.targetClasses)
    ensures r.subject == (if f.subject == "" then "Lainnya" else f.subject)
    ensures r.duration == (if f.duration == 0 then 60 else f.duration)
  {
    Exam(id, f.title, OrDefault(f.subject, "Lainnya"), f.kkm,
         if f.duration == 0 then 60 else f.duration, f.questions, false, Some(f.targetClasses))
  }

  /**
   * The exam list after `saveExam`, or `None` when the form is refused. In
   * edit mode every exam with the edited id takes the form and the rest stay;
   * otherwise the new exam is appended.
   */
  function SavedExams(exams: seq<Exam>, f: ExamForm, editingId: Option<string>, newId: string): (r: Option<seq<Exam>>)
    ensures r.None? <==> !CanSave(f)
    ensures r.Some? && IsEditing(editingId) ==>
      |r.value| == |exams| &&
      forall i :: 0 <= i < |exams| ==>
        (exams[i].id == editingId.value ==> r.value[i] == EditedExam(exams[i], f)) &&
        (exams[i].id != editingId.value ==> r.value[i] == exams[i])
    ensures r.Some? && !IsEditing(editingId) ==> r.value == exams + [CreatedExam(f, newId)]
  {
    if !CanSave(f) then None
    else if IsEditing(editingId) then
      Some(seq(|exams|, i requires 0 <= i < |exams| =>
        if exams[i].id == editingId.value then EditedExam(exams[i], f) else exams[i]))
    else Some(exams + [CreatedExam(f, newId)])
  }

  /** Opening an exam for editing and saving the form untouched gives the list back. */
  lemma EditRoundTrip(exams: seq<Exam>, k: nat, newId: string)
    requires k < |exams| && exams[k].id != ""
    requires exams[k].targetClasses.Some?
    requires CanSave(FormOf(exams[k]))
    requires forall j :: 0 <= j < |exams| && exams[j].id == exams[k].id ==> j == k
    ensures SavedExams(exams, FormOf(exams[k]), Some(exams[k].id), newId) == Some(exams)
  {
    var r := SavedExams(exams, FormOf(exams[k]), Some(exams[k].id), newId);
    assert EditedExam(exams[k], FormOf(exams[k])) == exams[k];
    assert r.value == exams;
  }

  /** Saving never yields an exam without questions when there was none before. */
  lemma SavedExamsHaveQuestions(exams: seq<Exam>, f: ExamForm, editingId: Option<string>, newId: string)
    requires forall i :: 0 <= i < |exams| ==> |exams[i].questions| > 0
    requires SavedExams(exams, f, editingId, newId).Some?
    ensures forall e :: e in SavedExams(exams, f, editingId, newId).value ==> |e.questions| > 0
  {
    var r := SavedExams(exams, f, editingId, newId).value;
    forall e | e in r ensures |e.questions| > 0 {
      var i :| 0 <= i < |r| && r[i] == e;
      if IsEditing(editingId) {
        assert i < |exams|;
      } else if i < |exams| {
        assert r[i] == exams[i];
      }
    }
  }

  /** The AI button's checks: material and subject present, 1 to 20 questions. */
  predicate GenerationAllowed(material: string, subject: string, count: int) {
    material != "" && subject != "" && 1 <= count <= 20
  }

  // -------------------------------------------------------------- component

  /** The dashboard's `useState` cells that the modelled handlers touch, and the state it was given. */
  class TeacherDashboard {
    var state: AppState
    var newExam: ExamForm
    var editingExamId: Option<string>
    var showCreateModal: bool
    var aiMaterial: string
    var aiQuestionCount: int
    var isGenerating: bool
    var csvInput: string
    var showImportArea: bool

    constructor (s: AppState)
      ensures state == s && newExam == BlankForm && editingExamId.None?
      ensures !showCreateModal && aiMaterial == "" && aiQuestionCount == 5 && !isGenerating
      ensures csvInput == "" && !showImportArea
    {
      state := s;
      newExam := BlankForm;
      editingExamId := None;
      showCreateModal := false;
      aiMaterial := "";
      aiQuestionCount := 5;
      isGenerating := false;
      csvInput := "";
      showImportArea := false;
    }

    /** 'TAMBAH SISWA' shows or hides the paste area. */
    method ToggleImportArea()
      modifies this`showImportArea
      ensures showImportArea == !old(showImportArea)
    {
      showImportArea := !showImportArea;
    }

    method SetCsvInput(text: string)
      modifies this`csvInput
      ensures csvInput == text
    {
      csvInput := text;
    }

    /** 'BATAL' hides the paste area and keeps the text. */
    method CancelImport()
      modifies this`showImportArea
      ensures !showImportArea
    {
      showImportArea := false;
    }

    /** `processCsvData(content)`: import, then clear and hide the paste area whatever the outcome. */
    method ProcessCsvData(content: string, ids: nat -> string)
      modifies this`state, this`csvInput, this`showImportArea
      ensures state == ImportCsv(old(state), content, ids)
      ensures csvInput == "" && !showImportArea
    {
      state := ImportCsv(state, content, ids);
      csvInput := "";
      showImportArea := false;
    }

    /** 'BUAT UJIAN BARU': a blank form in create mode. */
    method StartNewExam()
      modifies this`editingExamId, this`newExam, this`showCreateModal
      ensures editingExamId.None? && newExam == BlankForm && showCreateModal
    {
      editingExamId := None;
      newExam := BlankForm;
      showCreateModal := true;
    }

    /** `handleEditExam(exam)`: the exam's fields in the form, edit mode on. */
    method HandleEditExam(exam: Exam)
      modifies this`editingExamId, this`newExam, this`showCreateModal
      ensures editingExamId == Some(exam.id) && newExam == FormOf(exam) && showCreateModal
    {
      editingExamId := Some(exam.id);
      newExam := FormOf(exam);
      showCreateModal := true;
    }

    /** The modal's close button leaves edit mode but keeps the form. */
    method CloseCreateModal()
      modifies this`showCreateModal, this`editingExamId
      ensures !showCreateModal && editingExamId.None?
    {
      showCreateModal := false;
      editingExamId := None;
    }

    method SetTitle(title: string)
      modifies this`newExam
      ensures newExam == old(newExam).(title := title)
    {
      newExam := newExam.(title := title);
    }

    method SetSubject(subject: string)
      modifies this`newExam
      ensures newExam == old(newExam).(subject := subject)
    {
      newExam := newExam.(subject := subject);
    }

    method SetKkm(kkm: int)
      modifies this`newExam
      ensures newExam == old(newExam).(kkm := Some(kkm))
    {
      newExam := newExam.(kkm := Some(kkm));
    }

    method SetDuration(duration: int)
      modifies this`newExam
      ensures newExam == old(newExam).(duration := duration)
    {
      newExam := newExam.(duration := duration);
    }

    method SetAiMaterial(material: string)
      modifies this`aiMaterial
      ensures aiMaterial == material
    {
      aiMaterial := material;
    }

    /** The first half of `handleAiGenerate`: the checks, then the busy flag. The button is disabled while busy. */
    method BeginAiGenerate() returns (started: bool)
      requires !isGenerating
      modifies this`isGenerating
      ensures started <==> GenerationAllowed(aiMaterial, newExam.subject, aiQuestionCount)
      ensures isGenerating == started
    {
      started := GenerationAllowed(aiMaterial, newExam.subject, aiQuestionCount);
      isGenerating := started;
    }

    /**
     * The second half: the generated questions, or `None` when the service
     * failed, are appended to the form's; the busy flag drops either way.
     */
    method CompleteAiGenerate(generated: Option<seq<Question>>)
      requires isGenerating
      modifies this`newExam, this`isGenerating
      ensures generated.Some? ==> newExam == old(newExam).(questions := old(newExam.questions) + generated.value)
      ensures generated.None? ==> newExam == old(newExam)
      ensures !isGenerating
    {
      if generated.Some? {
        newExam := newExam.(questions := newExam.questions + generated.value);
      }
      isGenerating := false;
    }

    /**
     * `saveExam()`. A refused form changes nothing. Otherwise the exam list
     * becomes `SavedExams`, the modal closes, the form and the AI inputs
     * reset, and edit mode ends.
     */
    method SaveExam(newId: string) returns (saved: bool)
      modifies this`state, this`showCreateModal, this`newExam, this`aiMaterial,
               this`aiQuestionCount, this`editingExamId
      ensures saved <==> CanSave(old(newExam))
      ensures !saved ==> state == old(state) && newExam == old(newExam) && showCreateModal == old(showCreateModal)
                         && aiMaterial == old(aiMaterial) && aiQuestionCount == old(aiQuestionCount)
                         && editingExamId == old(editingExamId)
      ensures saved ==> state == old(state).(exams := SavedExams(old(state.exams), old(newExam), old(editingExamId), newId).value)
      ensures saved ==> !showCreateModal && newExam == BlankForm && aiMaterial == "" && aiQuestionCount == 5
      ensures saved ==> editingExamId == (if IsEditing(old(editingExamId)) then None else old(editingExamId))
    {
      var exams := SavedExams(state.exams, newExam, editingExamId, newId);
      if exams.None? {
        return false;
      }
      state := App.UpdateState(state, App.EmptyPatch.(exams := Some(exams.value)));
      if IsEditing(editingExamId) {
        editingExamId := None;
      }
      showCreateModal := false;
      newExam := BlankForm;
      aiMaterial := "";
      aiQuestionCount := 5;
      saved := true;
    }
  }
}
