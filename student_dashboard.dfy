/**
 * The student's dashboard (`components/StudentDashboard.tsx`): the exams on
 * offer, running one, recording its result, the student's own average and
 * the top-five leaderboard. The dashboard always acts for 'demo-student'.
 */
module StudentDashboard {
  import opened Wrappers
  import opened Types
  import opened Seqs
  import Stats
  import App

  const DemoStudent := "demo-student"
  const FallbackName := "Siswa Edu"
  const LeaderboardSize := 5

  predicate IsDemoResult(r: ExamResult) {
    r.studentId == DemoStudent
  }

  /** `studentResults`: the demo student's results, in the order they were recorded. */
  function StudentResults(results: seq<ExamResult>): (rs: seq<ExamResult>)
    ensures forall i :: 0 <= i < |rs| ==> rs[i].studentId == DemoStudent
    ensures forall r: ExamResult :: r.studentId == DemoStudent ==> multiset(rs)[r] == multiset(results)[r]
    ensures Subsequence(rs, results)
  {
    FilterMultiset(results, IsDemoResult);
    FilterSubsequence(results, IsDemoResult);
    Filter(results, IsDemoResult)
  }

  function Scores(rs: seq<ExamResult>): (xs: seq<real>)
    ensures |xs| == |rs| && forall i :: 0 <= i < |rs| ==> xs[i] == rs[i].score
  {
    seq(|rs|, i requires 0 <= i < |rs| => rs[i].score)
  }

  /** `avgScore`: the mean of the demo student's scores, 0 when there are none. */
  function AvgScore(results: seq<ExamResult>): (a: real)
    ensures var rs := StudentResults(results);
      && (|rs| == 0 ==> a == 0.0)
      && (|rs| > 0 ==> a == Stats.Sum(Scores(rs)) / |rs| as real)
  {
    Stats.Mean(Scores(StudentResults(results)))
  }

  /** With every score a percentage, so is the average. */
  lemma AvgScoreIsPercentage(results: seq<ExamResult>)
    requires forall i :: 0 <= i < |results| ==> 0.0 <= results[i].score <= 100.0
    ensures 0.0 <= AvgScore(results) <= 100.0
  {
    var rs := StudentResults(results);
    if |rs| > 0 {
      forall i | 0 <= i < |rs| ensures 0.0 <= rs[i].score <= 100.0 {
        assert rs[i] in multiset(rs);
        assert rs[i] in results;
      }
      Stats.MeanBounds(Scores(rs), 0.0, 100.0);
    }
  }

  /** A newly recorded result joins the student's own list at its end exactly when it is the student's. */
  lemma {:induction false} RecordedResultJoinsStudentResults(results: seq<ExamResult>, r: ExamResult)
    ensures StudentResults(results + [r]) == StudentResults(results) + (if IsDemoResult(r) then [r] else [])
  {
    FilterAppend(results, [r], IsDemoResult);
    assert Filter([r], IsDemoResult) == (if IsDemoResult(r) then [r] else []) + Filter([r][1..], IsDemoResult);
  }

  predicate IsActive(e: Exam) {
    e.active
  }

  /** The exams offered to start: the active ones, in list order. */
  function AvailableExams(exams: seq<Exam>): (r: seq<Exam>)
    ensures forall i :: 0 <= i < |r| ==> r[i].active
    ensures forall e: Exam :: e.active ==> multiset(r)[e] == multiset(exams)[e]
    ensures Subsequence(r, exams)
  {
    FilterMultiset(exams, IsActive);
    FilterSubsequence(exams, IsActive);
    Filter(exams, IsActive)
  }

  /** Scores never rise along the sequence. */
  ghost predicate NonIncreasing(rs: seq<ExamResult>) {
    forall i, j :: 0 <= i < j < |rs| ==> rs[i].score >= rs[j].score
  }

  /** Places `x` after every result that scores at least as much. */
  function InsertByScore(sorted: seq<ExamResult>, x: ExamResult): (r: seq<ExamResult>)
    requires NonIncreasing(sorted)
    ensures NonIncreasing(r)
    ensures multiset(r) == multiset(sorted) + multiset{x}
    ensures forall y :: y in r ==> y in sorted || y == x
    ensures |r| == |sorted| + 1
  {
    if sorted == [] then [x]
    else if sorted[0].score >= x.score then
      assert NonIncreasing(sorted[1..]) by {
        forall i, j | 0 <= i < j < |sorted| - 1 ensures sorted[1..][i].score >= sorted[1..][j].score {
          assert sorted[1..][i] == sorted[i + 1] && sorted[1..][j] == sorted[j + 1];
        }
      }
      var rest := InsertByScore(sorted[1..], x);
      assert sorted == [sorted[0]] + sorted[1..];
      HeadAboveRest(sorted[0], sorted[1..], x, rest);
      [sorted[0]] + rest
    else
      HeadAboveAll(x, sorted);
      [x] + sorted
  }

  /** A result scoring more than the head of a sorted sequence can go in front of it. */
  lemma HeadAboveAll(x: ExamResult, sorted: seq<ExamResult>)
    requires NonIncreasing(sorted) && sorted != [] && sorted[0].score < x.score
    ensures NonIncreasing([x] + sorted)
  {
    forall i, j | 0 <= i < j < |sorted| + 1 ensures ([x] + sorted)[i].score >= ([x] + sorted)[j].score {
      if i > 0 {
        assert ([x] + sorted)[i] == sorted[i - 1];
      }
      assert ([x] + sorted)[j] == sorted[j - 1];
    }
  }

  /** Putting a head in front keeps the scores non-increasing when it scores at least as much as everything after it. */
  lemma HeadAboveRest(h: ExamResult, tail: seq<ExamResult>, x: ExamResult, rest: seq<ExamResult>)
    requires NonIncreasing([h] + tail) && NonIncreasing(rest) && h.score >= x.score
    requires forall y :: y in rest ==> y in tail || y == x
    ensures NonIncreasing([h] + rest)
  {
    forall j | 0 <= j < |rest| ensures h.score >= rest[j].score {
      assert rest[j] in rest;
      if rest[j] != x {
        assert rest[j] in tail;
        assert ([h] + tail)[0] == h;
        var k :| 0 <= k < |tail| && tail[k] == rest[j];
        assert ([h] + tail)[k + 1] == tail[k];
      }
    }
  }

  /** `[...results].sort((a, b) => b.score - a.score)`: a reordering with scores from high to low. */
  function SortByScore(rs: seq<ExamResult>): (r: seq<ExamResult>)
    ensures NonIncreasing(r)
    ensures multiset(r) == multiset(rs)
    ensures |r| == |rs|
  {
    if rs == [] then []
    else
      assert rs == rs[..|rs| - 1] + [rs[|rs| - 1]];
      InsertByScore(SortByScore(rs[..|rs| - 1]), rs[|rs| - 1])
  }

  /** The test "scores exactly `v`", one function value so that filters by it can be compared. */
  function ScoreIs(v: real): ExamResult -> bool {
    (r: ExamResult) => r.score == v
  }

  /**
   * `sort` is stable: results with one score come out in the order they came
   * in, so for every score the sorted copy lists the same results in the same
   * order as `results`.
   */
  lemma {:induction false} SortByScoreStable(rs: seq<ExamResult>, v: real)
    ensures Filter(SortByScore(rs), ScoreIs(v)) == Filter(rs, ScoreIs(v))
  {
    if rs != [] {
      var init, last := rs[..|rs| - 1], rs[|rs| - 1];
      SortByScoreLast(rs);
      SortByScoreStable(init, v);
      InsertByScoreStable(SortByScore(init), last, v);
      FilterLast(rs, ScoreIs(v));
    }
  }

  /** The sort of a non-empty sequence inserts its last result into the sort of the rest. */
  lemma SortByScoreLast(rs: seq<ExamResult>)
    requires rs != []
    ensures NonIncreasing(SortByScore(rs[..|rs| - 1]))
    ensures SortByScore(rs) == InsertByScore(SortByScore(rs[..|rs| - 1]), rs[|rs| - 1])
  {
  }

  /** Inserting `x` puts it after every result of its own score. */
  lemma {:induction false} InsertByScoreStable(sorted: seq<ExamResult>, x: ExamResult, v: real)
    requires NonIncreasing(sorted)
    ensures Filter(InsertByScore(sorted, x), ScoreIs(v)) == Filter(sorted, ScoreIs(v)) + (if x.score == v then [x] else [])
  {
    var keep := ScoreIs(v);
    if sorted == [] {
      FilterCons(x, [], keep);
    } else {
      var h, tail := sorted[0], sorted[1..];
      InsertByScoreStep(sorted, x);
      if h.score >= x.score {
        InsertByScoreStable(tail, x, v);
        ConsKeepsFilter(h, tail, InsertByScore(tail, x), keep, if x.score == v then [x] else []);
      } else {
        FilterCons(x, sorted, keep);
        if x.score == v {
          NoneScores(sorted, v);
        }
      }
    }
  }

  /** One step of `InsertByScore` on a non-empty sequence. */
  lemma InsertByScoreStep(sorted: seq<ExamResult>, x: ExamResult)
    requires NonIncreasing(sorted) && sorted != []
    ensures NonIncreasing(sorted[1..]) && sorted == [sorted[0]] + sorted[1..]
    ensures sorted[0].score >= x.score ==> InsertByScore(sorted, x) == [sorted[0]] + InsertByScore(sorted[1..], x)
    ensures sorted[0].score < x.score ==> InsertByScore(sorted, x) == [x] + sorted
  {
    TailSorted(sorted);
  }

  /** The tail of a sequence sorted from high to low is sorted too. */
  lemma TailSorted(sorted: seq<ExamResult>)
    requires NonIncreasing(sorted) && sorted != []
    ensures NonIncreasing(sorted[1..])
  {
    var tail := sorted[1..];
    forall i, j | 0 <= i < j < |tail| ensures tail[i].score >= tail[j].score {
      assert tail[i] == sorted[i + 1] && tail[j] == sorted[j + 1];
    }
  }

  /** Nothing in a sequence sorted from high to low scores `v` when its head scores less. */
  lemma {:induction false} NoneScores(sorted: seq<ExamResult>, v: real)
    requires NonIncreasing(sorted) && sorted != [] && sorted[0].score < v
    ensures Filter(sorted, ScoreIs(v)) == []
  {
    if |sorted| > 1 {
      TailSorted(sorted);
      assert sorted[1..][0] == sorted[1];
      NoneScores(sorted[1..], v);
    }
  }

  function Min(a: int, b: int): int {
    if a <= b then a else b
  }

  /** `.slice(0, 5)` of the sorted copy: the results the leaderboard shows. */
  function TopChosen(results: seq<ExamResult>): (top: seq<ExamResult>)
    ensures |top| == Min(LeaderboardSize, |results|)
    ensures NonIncreasing(top)
  {
    SortByScore(results)[..Min(LeaderboardSize, |results|)]
  }

  /**
   * The leaderboard holds min(5, n) of the results, scores from high to low,
   * and every result left out scores no higher than the last one shown.
   */
  lemma TopChosenAreTheBest(results: seq<ExamResult>)
    ensures |TopChosen(results)| == Min(LeaderboardSize, |results|)
    ensures NonIncreasing(TopChosen(results))
    ensures multiset(TopChosen(results)) <= multiset(results)
    ensures |TopChosen(results)| > 0 ==>
      forall r: ExamResult :: r in multiset(results) - multiset(TopChosen(results)) ==>
        r.score <= TopChosen(results)[|TopChosen(results)| - 1].score
  {
    var sorted := SortByScore(results);
    var k := Min(LeaderboardSize, |results|);
    CutMultiset(sorted, k);
    if k > 0 {
      BelowTheCut(sorted, k);
    }
  }

  /** Cutting a sequence at `k`: the front is a sub-multiset and the rest is what remains. */
  lemma CutMultiset(xs: seq<ExamResult>, k: nat)
    requires k <= |xs|
    ensures multiset(xs[..k]) <= multiset(xs)
    ensures multiset(xs) - multiset(xs[..k]) == multiset(xs[k..])
  {
    assert xs == xs[..k] + xs[k..];
  }

  /** In a sequence sorted from high to low, nothing after position `k - 1` scores more than it. */
  lemma BelowTheCut(sorted: seq<ExamResult>, k: nat)
    requires NonIncreasing(sorted) && 0 < k <= |sorted|
    ensures forall r: ExamResult :: r in multiset(sorted[k..]) ==> r.score <= sorted[k - 1].score
  {
    forall r: ExamResult | r in multiset(sorted[k..]) ensures r.score <= sorted[k - 1].score {
      var j :| 0 <= j < |sorted[k..]| && sorted[k..][j] == r;
      assert sorted[k + j] == r;
    }
  }

  /** `students.find(s => s.id === id)`, as the index of the first match. */
  function FindStudent(students: seq<Student>, id: string): (r: Option<nat>)
    ensures r.Some? ==> r.value < |students| && students[r.value].id == id
    ensures r.Some? ==> forall j :: 0 <= j < r.value ==> students[j].id != id
    ensures r.None? ==> forall j :: 0 <= j < |students| ==> students[j].id != id
  {
    if students == [] then None
    else if students[0].id == id then Some(0)
    else match FindStudent(students[1..], id)
      case None => None
      case Some(i) => Some(i + 1)
  }

  /** `find(...)?.name || 'Siswa Edu'`: the first matching student's name, unless there is none or it is empty. */
  function LeaderName(students: seq<Student>, id: string): (name: string)
    ensures (forall j :: 0 <= j < |students| ==> students[j].id != id) ==> name == FallbackName
    ensures forall i :: (0 <= i < |students| && students[i].id == id && students[i].name != ""
                         && (forall j :: 0 <= j < i ==> students[j].id != id)) ==> name == students[i].name
    ensures forall i :: (0 <= i < |students| && students[i].id == id && students[i].name == ""
                         && (forall j :: 0 <= j < i ==> students[j].id != id)) ==> name == FallbackName
    ensures name != ""
  {
    match FindStudent(students, id)
    case None => FallbackName
    case Some(i) => if students[i].name != "" then students[i].name else FallbackName
  }

  datatype LeaderEntry = LeaderEntry(name: string, score: real)

  /** `topResults`: the chosen results, each shown with its student's name. */
  function TopResults(s: AppState): (board: seq<LeaderEntry>)
    ensures |board| == Min(LeaderboardSize, |s.results|)
    ensures forall i :: 0 <= i < |board| ==>
      board[i] == LeaderEntry(LeaderName(s.students, TopChosen(s.results)[i].studentId), TopChosen(s.results)[i].score)
    ensures forall i, j :: 0 <= i < j < |board| ==> board[i].score >= board[j].score
  {
    var top := TopChosen(s.results);
    seq(|top|, i requires 0 <= i < |top| => LeaderEntry(LeaderName(s.students, top[i].studentId), top[i].score))
  }

  /** The dashboard's state cells: the stored state it updates through `onUpdate`, and the exam being taken. */
  class StudentDashboard {
    var state: AppState
    var activeExam: Option<Exam>

    constructor (s: AppState)
      ensures state == s && activeExam.None?
    {
      state := s;
      activeExam := None;
    }

    /** 'MULAI UJIAN' on one of the offered exams. */
    method StartExam(exam: Exam)
      requires exam in AvailableExams(state.exams)
      modifies this`activeExam
      ensures activeExam == Some(exam)
    {
      activeExam := Some(exam);
    }

    /**
     * The `onCancel` callback handed to the runner. The runner declares it but
     * no event of the runner calls it, so the program never takes this step.
     */
    method CancelExam()
      modifies this`activeExam
      ensures activeExam.None?
    {
      activeExam := None;
    }

    /** `handleFinishExam`: the result is appended after all earlier ones, and the runner closes. */
    method HandleFinishExam(result: ExamResult)
      modifies this
      ensures state == old(state).(results := old(state.results) + [result])
      ensures |state.results| == |old(state.results)| + 1 && state.results[..|old(state.results)|] == old(state.results)
      ensures activeExam.None?
    {
      state := App.UpdateState(state, App.EmptyPatch.(results := Some(state.results + [result])));
      activeExam := None;
    }
  }
}
