# EduSmart dashboard core in Dafny

EduSmart is a browser dashboard for a school, written as a React application.
One state object holds the students, exams, results, assignments, submissions
and report settings. A teacher imports students from CSV text, writes and
publishes exams, deletes entries, edits the report-card settings and looks at
class rosters and grade averages. A student takes a timed exam in a runner
that scores the answers and watches for tab switches, and sees their average
and a top-five leaderboard. Every dashboard change goes through one
partial-update merge in the application shell.

This project models that core:

- `types.dfy`: the records of the state, one datatype each.
- `app.dfy`: the shell's merge of a partial state (`{ ...prev, ...patch }`), the current role, logout, and the props each dashboard receives.
- `teacher_dashboard.dfy`: the teacher's dashboard.
  - CSV import, including its JavaScript string semantics and the downloadable template.
  - The exam form and its save.
  - Publishing, deleting and the report settings.
  - The sorted class list, the class roster and a student's grade average.
  - The component's own state cells, as a class whose methods are the handlers.
- `exam_module.dfy`: the exam runner as a class `ExamSession`.
  - A method for each event: answer choice, Previous, Next, tab hidden, one timer tick, submit.
  - Scoring, checked by a loop proved against a counting function.
  - The `m:ss` clock.
- `student_dashboard.dfy`: the student's results, average, the offered exams, the leaderboard, and a class for starting and finishing an exam.
- `report_generator.dfy`: letter grades, PASSED/RETAKE and the report number.
- Support modules for the JavaScript built-ins the core uses. They follow the built-ins with the exceptions listed under "## Left out": `Strings.ToUpper` and `Strings.StrLess` are narrower, `Strings.IntToString` covers whole numbers printed without exponent, and arithmetic is on exact reals rather than floating point (the "Real numbers" line):
  - `strings.dfy`: `trim`, `split`, `join`, `padStart`, `toUpperCase` and the default string sort order.
  - `seqs.dfy`: `filter`.
  - `stats.dfy`: sums and means.
  - `wrappers.dfy`: an `Option` type.

Several inputs come from outside the program and are parameters of the model:
- random and time-based ids;
- `Date.now()`;
- the answer to a `confirm()` dialog;
- the questions the AI service returns.

Scores and grades are `real`, so arithmetic is exact where the source uses floating point.

Where the code does something other than its dialogs, labels or comments
suggest, the model follows the code:

- Editing an exam overwrites all six form keys, with no defaults.
- An empty editing id is falsy, so saving with it creates a new exam.
- A new exam's duration falls back to 60 only when it is 0.
- `deleteExam` keeps the exam's results, although its dialog says they go too.
- The downloadable template's header line `Nama,NIS,Kelas` has a comma, so importing the template unchanged adds a student named "Nama".
- A blank NIS gives the address `student@edu.com`, not `00000@edu.com`.

## Model

| member | source | states |
|---|---|---|
| App.UpdateState | App.tsx:55-57 | Each key present in the patch takes the patch's value; each absent key keeps the previous value. |
| App.EmptyPatchIdentity | App.tsx:55-57 | Merging the empty patch leaves the state unchanged. |
| App.UpdateStateCompose | App.tsx:55-57 | Two merges in a row equal one merge of the combined patch, the later patch winning. |
| App.UpdateStateIdempotent | App.tsx:55-57 | Merging the same patch twice equals merging it once. |
| App.Render | App.tsx:63-111 | No role shows the login screen. The teacher role shows the teacher dashboard and the student role the student dashboard. Each dashboard's props are the stored state with the current role. |
| App.SelectRole | App.tsx:38 | Login sets the current role and keeps the stored state. |
| App.Update | App.tsx:55-57 | A dashboard's update merges its patch into the stored state and keeps the role. |
| App.HandleLogout | App.tsx:59-61 | Logout clears the role and keeps the stored state. |
| App.LogoutThenLogin | App.tsx:59-64 | After logout the login screen shows. Logging in again sees the same state under the new role. |
| App.UpdateSeenByDashboard | App.tsx:100 | An update without a role re-renders the dashboard with its old props merged with the patch. |
| Strings.TrimStart | components/TeacherDashboard.tsx:43 | The result is a suffix of the input. It starts with a non-space character or is empty. Only white space was dropped. |
| Strings.TrimEnd | components/TeacherDashboard.tsx:43 | The result is a prefix of the input. It ends with a non-space character or is empty. Only white space was dropped. |
| Strings.Trim | components/TeacherDashboard.tsx:43 | The result is the slice between a leading and a trailing run of white space, with no space at either end. It is empty exactly when the input is all white space. |
| Strings.TrimIdempotent | components/TeacherDashboard.tsx:48-51 | Trimming twice is trimming once. |
| Strings.Split | components/TeacherDashboard.tsx:41 | There is at least one piece and no piece holds the separator. There are two or more pieces exactly when the separator occurs. |
| Strings.SplitThenJoin | components/TeacherDashboard.tsx:41 | Joining the pieces with the separator gives the input back. |
| Strings.SplitJoin | components/TeacherDashboard.tsx:45 | Splitting a join of separator-free parts gives the parts back. |
| Strings.SplitAppend | components/TeacherDashboard.tsx:45 | Splitting `a + sep + b` gives the pieces of `a` followed by the pieces of `b`. |
| Strings.ToUpper | components/ReportGenerator.tsx:34 | Same length. Each character is upper-cased: ASCII letters map, everything else stays. |
| Strings.ToUpperIdempotent | components/ReportGenerator.tsx:34 | Upper-casing twice is upper-casing once. |
| Strings.NatToString | components/ExamModule.tsx:91 | A non-empty digit string without leading zero. |
| Strings.ParseNatToString | components/ExamModule.tsx:91 | Reading a rendered number back gives the number. |
| Strings.IntToString | components/ExamModule.tsx:91 | A minus sign before the digits exactly when the number is negative. |
| Strings.PadStart | components/ExamModule.tsx:91 | The input ends the result. Only pad characters come before it. The result is `width` long when the input was shorter. An input already that long or longer is returned unchanged. |
| Strings.StrLessIrreflexive | components/TeacherDashboard.tsx:195 | The default sort order never puts a string before itself. |
| Strings.StrLessTransitive | components/TeacherDashboard.tsx:195 | The default sort order is transitive. |
| Strings.StrLessTotal | components/TeacherDashboard.tsx:195 | Any two distinct strings are ordered one way or the other. |
| Strings.StrictlySortedUnique | components/TeacherDashboard.tsx:195 | Two strictly sorted lists with the same members are equal. |
| Seqs.Filter | components/TeacherDashboard.tsx:163 | No longer than the input. Every kept element passes the test. |
| Seqs.FilterMultiset | components/TeacherDashboard.tsx:163 | Each passing value occurs as often as in the input. No failing value occurs. |
| Seqs.FilterSubsequence | components/TeacherDashboard.tsx:163 | The kept elements keep their order. |
| Seqs.FilterAppend | components/StudentDashboard.tsx:21 | Filtering a concatenation concatenates the filtered parts. |
| Seqs.FilterIdempotent | components/TeacherDashboard.tsx:163 | Filtering twice with one test is filtering once. |
| Stats.Mean | components/StudentDashboard.tsx:22 | 0 for no values. Otherwise the mean times the count is the sum. |
| Stats.MeanBounds | components/StudentDashboard.tsx:22 | The mean of values between two bounds lies between them. |
| TeacherDashboard.FieldOr | components/TeacherDashboard.tsx:48-51 | A trimmed piece, or the default when the piece is blank or missing. The result has no space at either end. |
| TeacherDashboard.ParseLine | components/TeacherDashboard.tsx:44-53 | The new student has the generated id and Math/Science/English at 0. Name, NIS and class are the first three trimmed pieces, each replaced when blank or missing by its default: "New Student", "00000" and "Unassigned". So all three are non-empty and trimmed. The address ends with `@edu.com` and starts with the NIS piece, or "student" when that piece is blank. |
| TeacherDashboard.ParseCsv | components/TeacherDashboard.tsx:41-54 | One student per non-blank line containing a comma, in line order. The i-th student is the parse of the i-th kept line with the i-th id. |
| TeacherDashboard.ImportCsv | components/TeacherDashboard.tsx:56-57 | The parsed students are appended after the existing ones. Nothing else changes. |
| TeacherDashboard.ParseRowLine | components/TeacherDashboard.tsx:43-53 | A line built from three clean fields is kept and reads back as those fields. |
| TeacherDashboard.CsvRoundTrip | components/TeacherDashboard.tsx:40-57 | Importing the CSV text of clean rows adds exactly those rows as students, in order. |
| TeacherDashboard.KeptLines | components/TeacherDashboard.tsx:43 | The import keeps every line of a file made of clean rows. |
| TeacherDashboard.ParseNameOnly | components/TeacherDashboard.tsx:48-51 | `name,` gives the default NIS "00000", the address `student@edu.com` and the class "Unassigned". |
| TeacherDashboard.ParseBlankLine | components/TeacherDashboard.tsx:43-52 | A line of blank pieces, such as ` , `, still adds a student made only of defaults. |
| TeacherDashboard.ParseIgnoresExtraFields | components/TeacherDashboard.tsx:45 | Pieces after the third do not change the student. |
| TeacherDashboard.TemplateIsCsv | components/TeacherDashboard.tsx:174 | The template text is the CSV of its three rows. |
| TeacherDashboard.TemplateImportsHeaderRow | components/TeacherDashboard.tsx:174 | Importing the template adds three students. The first is the header line, named "Nama". |
| TeacherDashboard.ToggleExamStatus | components/TeacherDashboard.tsx:154-159 | Exactly the exams with the id flip their `active` flag. Everything else is unchanged. |
| TeacherDashboard.ToggleTwice | components/TeacherDashboard.tsx:154-159 | Toggling twice restores the state. |
| TeacherDashboard.PublishedExamIsOffered | components/TeacherDashboard.tsx:154-159 | Publishing an unpublished exam puts it on the students' list of exams to start. |
| TeacherDashboard.DeleteStudent | components/TeacherDashboard.tsx:161-165 | If declined, nothing changes. If confirmed, no student with the id remains, every other student keeps its count and order, and the other lists are untouched. |
| TeacherDashboard.DeleteExam | components/TeacherDashboard.tsx:167-171 | If declined, nothing changes. If confirmed, no exam with the id remains, other exams keep count and order, and the results stay. |
| TeacherDashboard.DeleteStudentIdempotent | components/TeacherDashboard.tsx:161-165 | Deleting a student twice is deleting once. |
| TeacherDashboard.DeleteExamIdempotent | components/TeacherDashboard.tsx:167-171 | Deleting an exam twice is deleting once. |
| TeacherDashboard.DeleteAbsentStudent | components/TeacherDashboard.tsx:161-165 | Deleting an id no student has changes nothing. |
| TeacherDashboard.WithSetting | components/TeacherDashboard.tsx:188-191 | The named setting takes the value. The other three keep theirs. |
| TeacherDashboard.UpdateReportSettings | components/TeacherDashboard.tsx:186-193 | Only the named report setting changes, to the value. The rest of the state stays. |
| TeacherDashboard.UpdateReportSettingsLastWins | components/TeacherDashboard.tsx:186-193 | Two edits of one setting leave the last value. |
| TeacherDashboard.UpdateReportSettingsCommute | components/TeacherDashboard.tsx:186-193 | Edits of two different settings commute. |
| TeacherDashboard.InsertClass | components/TeacherDashboard.tsx:195 | Inserting into a strictly sorted list keeps it strictly sorted and adds exactly the new name. |
| TeacherDashboard.Classes | components/TeacherDashboard.tsx:195 | Strictly sorted in the default string order. Holds exactly the classes that occur. |
| TeacherDashboard.ClassesDistinct | components/TeacherDashboard.tsx:195 | No class is listed twice. |
| TeacherDashboard.ClassesUnique | components/TeacherDashboard.tsx:195 | Any sorted, repeat-free list of the occurring classes is the class list. |
| TeacherDashboard.StudentsInClass | components/TeacherDashboard.tsx:196 | Exactly the students of the class, each as often as in the list, in list order. |
| TeacherDashboard.ListedClassHasStudents | components/TeacherDashboard.tsx:195-196 | Every listed class has a non-empty roster. |
| TeacherDashboard.GradeAverage | components/TeacherDashboard.tsx:200-201 | 0 with no subjects. Otherwise the average times the number of subjects is the sum. |
| TeacherDashboard.GradeAverageInRange | components/TeacherDashboard.tsx:510-511 | Grades from 0 to 100 average to a value from 0 to 100. |
| TeacherDashboard.ImportedStudentAveragesZero | components/TeacherDashboard.tsx:52 | A freshly imported student averages 0. |
| TeacherDashboard.FormOf | components/TeacherDashboard.tsx:107-116 | The form `handleEditExam` fills in: the exam's title, subject, pass mark, duration and questions, and its target classes or an empty list when it has none. |
| TeacherDashboard.CanSave | components/TeacherDashboard.tsx:121 | A save goes ahead only with a non-empty title and at least one question. |
| TeacherDashboard.IsEditing | components/TeacherDashboard.tsx:126 | `if (editingExamId)`: edit mode needs an id that is present and not the empty string, which JavaScript treats as false. |
| TeacherDashboard.EditedExam | components/TeacherDashboard.tsx:129 | The edited exam keeps its id and publication state. Its form fields are exactly the form. |
| TeacherDashboard.CreatedExam | components/TeacherDashboard.tsx:135-144 | The new exam is unpublished with the given id. The subject is "Lainnya" when blank and the duration is 60 when 0. The other fields come from the form. |
| TeacherDashboard.SavedExams | components/TeacherDashboard.tsx:120-146 | Refused exactly without a title or a question. In edit mode exams with the id take the form and the rest stay. Otherwise the new exam is appended. |
| TeacherDashboard.EditRoundTrip | components/TeacherDashboard.tsx:107-133 | Opening an exam for editing and saving the untouched form gives the exam list back, under four conditions: the exam's id is non-empty, no other exam shares it, the exam has target classes, and the form can be saved. The program never checks ids for uniqueness. Other exams with the same id are overwritten with the edited exam's form, as `SavedExams` states. An exam without target classes comes back with an empty list. |
| TeacherDashboard.SavedExamsHaveQuestions | components/TeacherDashboard.tsx:121 | When no exam lacks questions before a save, none lacks them after it. |
| TeacherDashboard.TeacherDashboard.constructor | components/TeacherDashboard.tsx:15-38 | The initial state cells: the blank form with pass mark 75, 60 minutes and target class "UMUM", five AI questions, nothing open. |
| TeacherDashboard.TeacherDashboard.ToggleImportArea | components/TeacherDashboard.tsx:414 | The paste area's visibility flips. |
| TeacherDashboard.TeacherDashboard.SetCsvInput | components/TeacherDashboard.tsx:436 | The pasted text is stored. |
| TeacherDashboard.TeacherDashboard.CancelImport | components/TeacherDashboard.tsx:439 | The paste area hides and the text stays. |
| TeacherDashboard.TeacherDashboard.ProcessCsvData | components/TeacherDashboard.tsx:40-64 | The state becomes the import of the content. The text clears and the area hides, whatever the outcome. |
| TeacherDashboard.TeacherDashboard.StartNewExam | components/TeacherDashboard.tsx:407 | The modal opens on the blank form, in create mode. |
| TeacherDashboard.TeacherDashboard.HandleEditExam | components/TeacherDashboard.tsx:107-118 | The modal opens with the exam's fields in the form and edit mode on for its id. |
| TeacherDashboard.TeacherDashboard.CloseCreateModal | components/TeacherDashboard.tsx:614 | The modal closes and edit mode ends. The form is kept. |
| TeacherDashboard.TeacherDashboard.SetTitle | components/TeacherDashboard.tsx:617 | The form's title changes and nothing else. |
| TeacherDashboard.TeacherDashboard.SetSubject | components/TeacherDashboard.tsx:618 | The form's subject changes and nothing else. |
| TeacherDashboard.TeacherDashboard.SetKkm | components/TeacherDashboard.tsx:618 | The form's pass mark changes and nothing else. |
| TeacherDashboard.TeacherDashboard.SetDuration | components/TeacherDashboard.tsx:618 | The form's duration changes and nothing else. |
| TeacherDashboard.TeacherDashboard.SetAiMaterial | components/TeacherDashboard.tsx:621 | The AI material text is stored. |
| TeacherDashboard.GenerationAllowed | components/TeacherDashboard.tsx:84-91 | The AI request is made only with material, a subject and a question count from 1 to 20. |
| TeacherDashboard.TeacherDashboard.BeginAiGenerate | components/TeacherDashboard.tsx:83-93 | Generation starts, and the busy flag rises, exactly when there is material, a subject, and 1 to 20 questions asked. |
| TeacherDashboard.TeacherDashboard.CompleteAiGenerate | components/TeacherDashboard.tsx:95-104 | Returned questions are appended after the form's. A failure leaves the form. The busy flag drops either way. |
| TeacherDashboard.TeacherDashboard.SaveExam | components/TeacherDashboard.tsx:120-152 | A refused form changes nothing. Otherwise the exams become the saved list, the modal closes, the form and AI inputs reset, and an edit ends edit mode. |
| ExamModule.CorrectCountBounds | components/ExamModule.tsx:54-57 | At most every question is correct. All are exactly when each one is; none are exactly when none is. |
| ExamModule.NoAnswersScoreZero | components/ExamModule.tsx:14 | With no answers recorded, the count is 0. |
| ExamModule.CorrectCount | components/ExamModule.tsx:54-57 | The number of questions whose recorded answer is the correct option, an unanswered question counting as wrong. Never more than the number of questions. |
| ExamModule.CountCorrect | components/ExamModule.tsx:54-57 | The loop counts exactly the questions whose recorded answer is the correct option. |
| ExamModule.Percentage | components/ExamModule.tsx:62 | Between 0 and 100. It is 100 exactly when all are correct and 0 exactly when none are. |
| ExamModule.PercentageMonotone | components/ExamModule.tsx:62 | More correct answers never give a lower score. |
| ExamModule.ResultOf | components/ExamModule.tsx:59-65 | The result carries the student, exam, cheat flag and time. Its score is `Percentage` of the correct count over the number of questions, `(correct / n) * 100`. So it lies from 0 to 100, and it is 100 exactly when every question is answered correctly and 0 exactly when none is. |
| ExamModule.JsRem60 | components/ExamModule.tsx:91 | JavaScript's `t % 60`: differs from `t` by a multiple of 60, lies strictly between -60 and 60, and has the sign of `t`. |
| ExamModule.Clock | components/ExamModule.tsx:91 | For a non-negative time, the display reads back as that time through `ClockSeconds`. That reader takes only whole minutes without a leading zero, a colon and two second digits below 60, so each time has exactly one accepted reading. |
| ExamModule.ClockCanonical | components/ExamModule.tsx:91 | Any reading that `ClockSeconds` reads back as `t` is exactly `Clock(t)`. So each time has one accepted reading, and readings such as `0:75`, `01:15` or `:05` are rejected. |
| ExamModule.ExamSession.constructor | components/ExamModule.tsx:13-16 | First question, no answers, `duration * 60` seconds, no cheating. It submits at once with no time. |
| ExamModule.ExamSession.SelectAnswer | components/ExamModule.tsx:113 | The choice is recorded for the current question, replacing an earlier one. |
| ExamModule.ExamSession.PreviousQuestion | components/ExamModule.tsx:129-130 | One question back, never before the first. |
| ExamModule.ExamSession.NextQuestion | components/ExamModule.tsx:136-150 | One question on; not offered on the last question. |
| ExamModule.ExamSession.VisibilityChange | components/ExamModule.tsx:24-28 | Hiding the page sets the cheat flag, which nothing clears. |
| ExamModule.ExamSession.Tick | components/ExamModule.tsx:44-51 | The clock drops by one. Reaching zero submits the current answers. |
| ExamModule.ExamSession.HandleSubmit | components/ExamModule.tsx:53-71 | The result handed on is `ResultOf` the recorded answers: the percentage of correct answers, with the cheat flag and the time. |
| StudentDashboard.StudentResults | components/StudentDashboard.tsx:21 | Exactly the demo student's results, each as often as recorded, in order. |
| StudentDashboard.RecordedResultJoinsStudentResults | components/StudentDashboard.tsx:15-21 | A newly recorded result joins the student's list at its end exactly when it is the student's. |
| StudentDashboard.AvgScore | components/StudentDashboard.tsx:22 | 0 with no results of the student. Otherwise the mean of their scores. |
| StudentDashboard.AvgScoreIsPercentage | components/StudentDashboard.tsx:22 | Percentage scores average to a percentage. |
| StudentDashboard.AvailableExams | components/StudentDashboard.tsx:72 | Exactly the active exams, each as often as listed, in order. |
| StudentDashboard.InsertByScore | components/StudentDashboard.tsx:25 | Inserting into a list sorted from high to low keeps it sorted and adds exactly the new result. |
| StudentDashboard.SortByScore | components/StudentDashboard.tsx:24-25 | A permutation of the results, scores from high to low. |
| StudentDashboard.SortByScoreStable | components/StudentDashboard.tsx:24-25 | The sort is stable, as `Array.prototype.sort` must be: for every score, the results with that score come out in their order in `results`. |
| StudentDashboard.InsertByScoreStable | components/StudentDashboard.tsx:25 | An inserted result lands after every result with the same score. |
| StudentDashboard.TopChosen | components/StudentDashboard.tsx:24-26 | `.slice(0, 5)` of the sorted copy: min(5, n) results, scores from high to low. |
| StudentDashboard.TopChosenAreTheBest | components/StudentDashboard.tsx:24-26 | The leaderboard holds min(5, n) results from high to low, taken from the results. Each result left out scores no more than the last one shown. |
| StudentDashboard.FindStudent | components/StudentDashboard.tsx:28 | The index of the first student with the id, or none when no student has it. |
| StudentDashboard.LeaderName | components/StudentDashboard.tsx:28 | The first matching student's name; "Siswa Edu" when there is none or the name is empty. Never empty. |
| StudentDashboard.TopResults | components/StudentDashboard.tsx:24-30 | min(5, n) entries, scores from high to low. Each entry is the chosen result's score with its student's name. |
| StudentDashboard.StudentDashboard.constructor | components/StudentDashboard.tsx:13 | No exam is running. |
| StudentDashboard.StudentDashboard.StartExam | components/StudentDashboard.tsx:72-83 | Only an offered (active) exam can be started, and it becomes the running exam. |
| StudentDashboard.StudentDashboard.CancelExam | components/StudentDashboard.tsx:33 | The `onCancel` callback closes the runner. The runner never calls it (ExamModule.tsx declares it at lines 9 and 12 and uses it nowhere), so the program never takes this step. |
| StudentDashboard.StudentDashboard.HandleFinishExam | components/StudentDashboard.tsx:15-17 | The result is appended after all earlier ones, nothing else in the state changes, and the runner closes. |
| ReportGenerator.LetterGrade | components/ReportGenerator.tsx:69 | A+ exactly from 90, A exactly from 80 to below 90, B exactly from 70 to below 80, C exactly below 70. |
| ReportGenerator.LetterGradeMonotone | components/ReportGenerator.tsx:69 | A higher score never receives a lower letter. |
| ReportGenerator.Status | components/ReportGenerator.tsx:72-73 | PASSED exactly from 60, otherwise RETAKE. |
| ReportGenerator.HigherLettersPass | components/ReportGenerator.tsx:69-73 | A+, A and B always pass; only a C can be a retake. |
| ReportGenerator.LetterCSpansBothStatuses | components/ReportGenerator.tsx:69-73 | A C can pass (65) or be a retake (59). |
| ReportGenerator.ReportRows | components/ReportGenerator.tsx:61-78 | One row per subject in key order, carrying its score, its letter, and `Status` of the score: PASSED from 60, RETAKE below. |
| ReportGenerator.RowsOrderedByScore | components/ReportGenerator.tsx:61-73 | Across rows, a higher score never has a lower letter. |
| ReportGenerator.ReportNumber | components/ReportGenerator.tsx:34 | `#SR-` followed by the id upper-cased: each lower-case ASCII letter becomes its upper-case letter and every other character is kept. |
| ReportGenerator.ReportNumberIgnoresCase | components/ReportGenerator.tsx:34 | Ids differing only in ASCII letter case share a report number. |

## Left out

- Persistence: `localStorage` loading and saving (App.tsx:32-42) is not modelled, and neither is the online/offline listener (App.tsx:44-53). The model starts from a given state.
- Demo data: the initial demo state (`INITIAL_STATE`, App.tsx:9-29) is not modelled. It has no `submissions` and no `reportSettings`, while the model's state always holds both. So the program's own starting state is not a model state. From that state, `updateReportSettings` (TeacherDashboard.tsx:189) would spread `undefined`, and the settings inputs (TeacherDashboard.tsx:323, 544) would read `schoolName` of `undefined`. The model does not capture those failures.
- Low-time colour: the clock turns red under five minutes (ExamModule.tsx:90). This is presentation only and changes no state.
- File I/O: reading a CSV file with `FileReader` (TeacherDashboard.tsx:66-81) is I/O. Its text goes to the same `ProcessCsvData`.
- Template download: the file download itself (TeacherDashboard.tsx:175-183) is I/O. The template text is modelled.
- AI service: the AI question generator is a network service. Its answer, or its failure, is the parameter of `CompleteAiGenerate`. services/geminiService.ts is not part of this model.
- Other screens: `LoginScreen.tsx` and `index.tsx` are not part of this model. Login is modelled only as the role it sets.
- Print report: in the teacher role App.tsx:107-111 also renders the hidden `ReportGenerator` for `state.students[0]`. With no students (after a confirmed `DeleteStudent` of the last one, for instance) that is `undefined`, and `student.id.toUpperCase()` at ReportGenerator.tsx:34 throws during rendering, leaving the screen blank. `App.Render` still returns the teacher screen there, so it does not capture that failure.
- Dialogs: `alert` messages are not modelled. The answer to `confirm` is a parameter of the delete operations.
- Fullscreen: fullscreen requests and the fullscreen banner in the exam runner are not modelled.
- Ids and clocks: `Math.random()` ids are the parameter `ids: nat -> string`; the model does not claim they are distinct. `Date.now()` ids and timestamps are parameters too.
- Floating point: `toFixed`, the date shown on the report, the charts and the purely visual parts of the screens are not modelled.
- Teacher UI state: the tab, preview, selected class and report-student states and their buttons are not modelled. The roster takes the selected class as a parameter.
- Assignments and submissions: they are only carried in the state. No core handler changes them.
- Reactive updates: React's batching of state updates and effect scheduling are not modelled. Each handler is one atomic step, and the timer effect is one `Tick` per second.
- Real numbers: scores are exact reals, so floating-point rounding in `(score / n) * 100` and in the averages is not modelled. The sums and means of `stats.dfy` are exact for the same reason.
- Strings.IntToString: prints every digit of any whole number. JavaScript's `Number#toString` switches to exponent form from 1e21, and integers past 2^53 are not exact. The clock only prints minutes and seconds of an exam's duration, far below both.
- `parseInt`: the kkm and duration inputs parse with `parseInt`, which yields `NaN` for a blank input. The model's setters take whole numbers, so `NaN` does not arise.
- Strings.ToUpper: maps only the ASCII letters `a` to `z`. JavaScript's `toUpperCase` also maps other Unicode letters.
- Strings.StrLess: compares single characters. JavaScript's default sort compares UTF-16 code units, which differ from characters outside the Basic Multilingual Plane.
- ExamModule.ResultOf: requires at least one question. With none, the source divides 0 by 0, which gives `NaN`, and the runner cannot show a current question.
- ExamModule.ExamSession.NextQuestion: requires a question after the current one, because the source shows Submit instead of Next on the last question.
- TeacherDashboard.TeacherDashboard.BeginAiGenerate: requires that no generation is running, because the button is disabled while one is.
- Record key order: a student's `grades` record is a sequence of subject/score pairs in insertion order, as `Object.entries` returns them for non-numeric keys. The model does not exclude two grades with the same subject, which a JavaScript record cannot hold.
