/**
 * The exam runner (`components/ExamModule.tsx`): one sitting of one exam by
 * one student. Browser events become method calls: a question choice, the
 * Previous/Next/Submit buttons, a page-visibility change, and one timer tick
 * per elapsed second. The clock reading `Date.now()` is a parameter.
 */
module ExamModule {
  import opened Wrappers
  import opened Types
  import Strings

  /** A question counts as correct when its recorded answer equals its correct option. */
  predicate AnsweredCorrectly(q: Question, answers: map<string, int>) {
    q.id in answers && answers[q.id] == q.correctAnswer
  }

  /** The number of questions answered correctly; unanswered questions count as wrong. */
  function CorrectCount(qs: seq<Question>, answers: map<string, int>): (c: nat)
    ensures c <= |qs|
  {
    if qs == [] then 0
    else CorrectCount(qs[..|qs| - 1], answers) + (if AnsweredCorrectly(qs[|qs| - 1], answers) then 1 else 0)
  }

  /** At most every question is correct, and all are exactly when each one is. */
  lemma {:induction false} CorrectCountBounds(qs: seq<Question>, answers: map<string, int>)
    ensures CorrectCount(qs, answers) <= |qs|
    ensures CorrectCount(qs, answers) == |qs| <==> forall i :: 0 <= i < |qs| ==> AnsweredCorrectly(qs[i], answers)
    ensures CorrectCount(qs, answers) == 0 <==> forall i :: 0 <= i < |qs| ==> !AnsweredCorrectly(qs[i], answers)
  {
    if qs != [] {
      var init := qs[..|qs| - 1];
      CorrectCountBounds(init, answers);
      assert forall i :: 0 <= i < |init| ==> init[i] == qs[i];
    }
  }

  /** With no answers recorded nothing is correct. */
  lemma NoAnswersScoreZero(qs: seq<Question>)
    ensures CorrectCount(qs, map[]) == 0
  {
    CorrectCountBounds(qs, map[]);
  }

  /**
   * `handleSubmit`'s `forEach` loop: count the questions whose recorded
   * answer is the correct one.
   */
  method CountCorrect(qs: seq<Question>, answers: map<string, int>) returns (correct: nat)
    ensures correct == CorrectCount(qs, answers)
  {
    correct := 0;
    var i := 0;
    while i < |qs|
      invariant 0 <= i <= |qs|
      invariant correct == CorrectCount(qs[..i], answers)
    {
      assert qs[..i + 1][..i] == qs[..i];
      if qs[i].id in answers && answers[qs[i].id] == qs[i].correctAnswer {
        correct := correct + 1;
      }
      i := i + 1;
    }
    assert qs[..|qs|] == qs;
  }

  /** `(score / exam.questions.length) * 100` for `correct` of `n` questions. */
  function Percentage(correct: nat, n: nat): (p: real)
    requires 0 < n && correct <= n
    ensures 0.0 <= p <= 100.0
    ensures p == 100.0 <==> correct == n
    ensures p == 0.0 <==> correct == 0
  {
    (correct as real / n as real) * 100.0
  }

  /** A higher count never gives a lower percentage. */
  lemma PercentageMonotone(c1: nat, c2: nat, n: nat)
    requires 0 < n && c1 <= c2 <= n
    ensures Percentage(c1, n) <= Percentage(c2, n)
  {
    var d := n as real;
    assert (c2 as real - c1 as real) / d >= 0.0;
    assert c2 as real / d - c1 as real / d == (c2 as real - c1 as real) / d;
  }

  /** The result handed to `onFinish`. */
  function ResultOf(exam: Exam, studentId: string, answers: map<string, int>, cheated: bool, now: int): (r: ExamResult)
    requires |exam.questions| > 0
    ensures r.studentId == studentId && r.examId == exam.id
    ensures r.cheated == cheated && r.timestamp == now
    ensures r.score == Percentage(CorrectCount(exam.questions, answers), |exam.questions|)
    ensures 0.0 <= r.score <= 100.0
    ensures r.score == 100.0 <==> forall i :: 0 <= i < |exam.questions| ==> AnsweredCorrectly(exam.questions[i], answers)
    ensures r.score == 0.0 <==> forall i :: 0 <= i < |exam.questions| ==> !AnsweredCorrectly(exam.questions[i], answers)
  {
    CorrectCountBounds(exam.questions, answers);
    var correct := CorrectCount(exam.questions, answers);
    ExamResult(studentId, exam.id, Percentage(correct, |exam.questions|), cheated, now)
  }

  /** JavaScript's `t % 60`: the remainder takes the sign of `t`. */
  function JsRem60(t: int): (r: int)
    ensures t >= 0 ==> r == t % 60
    ensures t < 0 ==> r <= 0
    ensures (t - r) % 60 == 0
    ensures -60 < r < 60
  {
    if t >= 0 then t % 60 else -((-t) % 60)
  }

  /**
   * The countdown: `Math.floor(t / 60)`, a colon, then `t % 60` padded to two
   * digits. For a time that is not negative it shows the whole minutes and
   * exactly two second digits, and reading it back gives the time.
   */
  function Clock(t: int): (c: string)
    ensures t >= 0 ==> ClockSeconds(c) == Some(t)
  {
    var m := Strings.IntToString(t / 60);
    var ss := Strings.PadStart(Strings.IntToString(JsRem60(t)), 2, '0');
    ClockReading(t, m, ss);
    m + ":" + ss
  }

  /** A decimal numeral as `toString` prints a whole number: at least one digit and no leading zero. */
  predicate PlainNumeral(m: string) {
    |m| >= 1 && Strings.AllDigits(m) && (|m| == 1 || m[0] != '0')
  }

  /** A numeral that does not start with zero is worth at least 1. */
  lemma {:induction false} ParseNatPositive(s: string)
    requires |s| >= 1 && Strings.AllDigits(s) && s[0] != '0'
    ensures Strings.ParseNat(s) >= 1
  {
    if |s| > 1 {
      var init := s[..|s| - 1];
      assert init[0] == s[0];
      ParseNatPositive(init);
    } else {
      assert s[..|s| - 1] == [];
    }
  }

  /** Printing the value of a plain numeral gives the numeral back. */
  lemma {:induction false} NatToStringOfNumeral(m: string)
    requires PlainNumeral(m)
    ensures Strings.NatToString(Strings.ParseNat(m)) == m
  {
    var n := Strings.ParseNat(m);
    var last := m[|m| - 1];
    if |m| == 1 {
      assert m[..|m| - 1] == [];
      assert n == Strings.ParseNat(m[..|m| - 1]) * 10 + Strings.DigitValue(last);
      assert m == [last];
    } else {
      var init := m[..|m| - 1];
      assert init[0] == m[0];
      NatToStringOfNumeral(init);
      ParseNatPositive(init);
      assert n == Strings.ParseNat(init) * 10 + Strings.DigitValue(last);
      assert n / 10 == Strings.ParseNat(init) && n % 10 == Strings.DigitValue(last);
      assert m == init + [last];
    }
  }

  /**
   * Reads a `m:ss` reading back as seconds: plain minutes, a colon and two
   * digits below 60. `None` for anything else, so each time has one reading.
   */
  function ClockSeconds(s: string): Option<nat> {
    var parts := Strings.Split(s, ':');
    if |parts| == 2 && PlainNumeral(parts[0]) && Strings.AllDigits(parts[1]) && |parts[1]| == 2
       && Strings.ParseNat(parts[1]) < 60 then
      Some(60 * Strings.ParseNat(parts[0]) + Strings.ParseNat(parts[1]))
    else None
  }

  /** A number below 60 prints as at most two digits. */
  lemma ShortNumber(n: nat)
    requires n < 60
    ensures |Strings.NatToString(n)| <= 2
  {
    if n >= 10 {
      assert Strings.NatToString(n) == Strings.NatToString(n / 10) + [Strings.DigitChar(n % 10)];
    }
  }

  /** The seconds field: exactly two digits that read back as `x`. */
  lemma SecondsField(x: nat)
    requires x < 60
    ensures var ss := Strings.PadStart(Strings.NatToString(x), 2, '0');
      |ss| == 2 && Strings.AllDigits(ss) && Strings.ParseNat(ss) == x
  {
    var secs := Strings.NatToString(x);
    var ss := Strings.PadStart(secs, 2, '0');
    ShortNumber(x);
    Strings.ParseNatToString(x);
    if |secs| == 1 {
      assert ss == Strings.PadStart("0" + secs, 2, '0');
      Strings.ParseNatLeadingZero(secs);
    }
  }

  /** Digit strings hold no colon. */
  lemma DigitsNoColon(s: string)
    requires Strings.AllDigits(s)
    ensures ':' !in s
  {
    assert forall i :: 0 <= i < |s| ==> Strings.IsDigit(s[i]);
  }

  /** The two fields the clock prints for a time that is not negative read back as that time. */
  lemma ClockReading(t: int, m: string, ss: string)
    requires m == Strings.IntToString(t / 60)
    requires ss == Strings.PadStart(Strings.IntToString(JsRem60(t)), 2, '0')
    ensures t >= 0 ==> ClockSeconds(m + ":" + ss) == Some(t)
  {
    if t >= 0 {
      ClockFields(t, m, ss);
      ClockReadsBack(t, m + ":" + ss, m, ss);
    }
  }

  /** Digits worth the minutes of `t`, a colon and two digits worth its seconds read back as `t`. */
  lemma ClockReadsBack(t: nat, c: string, m: string, ss: string)
    requires PlainNumeral(m) && Strings.AllDigits(ss) && |ss| == 2
    requires Strings.ParseNat(m) == t / 60 && Strings.ParseNat(ss) == t % 60
    requires c == m + [':'] + ss
    ensures ClockSeconds(c) == Some(t)
  {
    ReadClock(c, m, ss, t / 60, t % 60);
    MinutesAndSeconds(t);
  }

  lemma MinutesAndSeconds(t: nat)
    ensures 60 * (t / 60) + t % 60 == t
  {
  }

  /** The two fields of the clock are digit strings worth the minutes and the seconds. */
  lemma ClockFields(t: nat, m: string, ss: string)
    requires m == Strings.NatToString(t / 60)
    requires ss == Strings.PadStart(Strings.NatToString(t % 60), 2, '0')
    ensures PlainNumeral(m) && Strings.AllDigits(ss) && |ss| == 2
    ensures Strings.ParseNat(m) == t / 60 && Strings.ParseNat(ss) == t % 60
  {
    SecondsField(t % 60);
    Strings.ParseNatToString(t / 60);
  }

  /** A reading made of plain minutes worth `mins`, a colon and two digits worth `secs` below 60 reads back as `60 * mins + secs`. */
  lemma ReadClock(c: string, m: string, ss: string, mins: nat, secs: nat)
    requires PlainNumeral(m) && Strings.AllDigits(ss) && |ss| == 2 && secs < 60
    requires Strings.ParseNat(m) == mins && Strings.ParseNat(ss) == secs
    requires c == m + [':'] + ss
    ensures ClockSeconds(c) == Some(60 * mins + secs)
  {
    ColonSplit(m, ss);
  }

  /**
   * The reader accepts only what the clock shows: a reading that reads back
   * as `t` is exactly `Clock(t)`. So `0:75`, `01:15` and `:05` read as nothing.
   */
  lemma ClockCanonical(c: string, t: nat)
    requires ClockSeconds(c) == Some(t)
    ensures c == Clock(t)
  {
    var parts := Strings.Split(c, ':');
    var m, ss := parts[0], parts[1];
    Strings.SplitThenJoin(c, ':');
    assert parts[1..] == [ss];
    assert c == m + [':'] + ss;
    var mins, secs := Strings.ParseNat(m), Strings.ParseNat(ss);
    MinutesAndSecondsOf(mins, secs, t);
    NatToStringOfNumeral(m);
    SecondsFieldOf(ss);
    assert JsRem60(t) == secs;
  }

  /** `60 * mins + secs` with `secs` below 60 has `mins` whole minutes and `secs` seconds left. */
  lemma MinutesAndSecondsOf(mins: nat, secs: nat, t: nat)
    requires secs < 60 && t == 60 * mins + secs
    ensures t / 60 == mins && t % 60 == secs
  {
  }

  /** Two digits worth less than 60 are how the clock pads that many seconds. */
  lemma SecondsFieldOf(ss: string)
    requires Strings.AllDigits(ss) && |ss| == 2 && Strings.ParseNat(ss) < 60
    ensures Strings.PadStart(Strings.NatToString(Strings.ParseNat(ss)), 2, '0') == ss
  {
    var n := Strings.ParseNat(ss);
    assert ss[..1] == [ss[0]] && [ss[0]][..0] == [];
    assert n == Strings.DigitValue(ss[0]) * 10 + Strings.DigitValue(ss[1]);
    if ss[0] == '0' {
      assert Strings.NatToString(n) == [ss[1]];
      var r := Strings.PadStart([ss[1]], 2, '0');
      assert r[1..] == [ss[1]] && r[0] == '0';
    } else {
      NatToStringOfNumeral(ss);
    }
  }

  /** Two digit strings joined by a colon split back into the two. */
  lemma ColonSplit(m: string, ss: string)
    requires Strings.AllDigits(m) && Strings.AllDigits(ss)
    ensures Strings.Split(m + [':'] + ss, ':') == [m, ss]
  {
    DigitsNoColon(m);
    DigitsNoColon(ss);
    Strings.SplitPrefix(m, ss, ':');
    Strings.SplitNoSep(ss, ':');
  }

  /** One sitting of an exam: the component's state cells, and the result once it has been handed on. */
  class ExamSession {
    const exam: Exam
    const studentId: string
    var currentQuestionIndex: int
    var answers: map<string, int>
    var timeLeft: int
    var isCheatDetected: bool
    /** What `onFinish` received; the parent unmounts the runner then, so no event follows. */
    var finished: Option<ExamResult>

    /**
     * The index stays on a question; a running sitting has time left (the timer
     * effect submits at zero); a finished one handed on a result for this
     * student and exam, carrying the cheat flag.
     */
    ghost predicate Valid()
      reads this
    {
      && |exam.questions| >= 1
      && 0 <= currentQuestionIndex < |exam.questions|
      && (finished.None? ==> timeLeft > 0)
      && (finished.Some? ==> finished.value.studentId == studentId && finished.value.examId == exam.id
                             && finished.value.cheated == isCheatDetected)
    }

    function CurrentQuestion(): Question
      reads this
      requires Valid()
    {
      exam.questions[currentQuestionIndex]
    }

    /**
     * Mounting: the first question, no answers, `duration * 60` seconds, no
     * cheating; the timer effect's first run submits at once when no time is left.
     */
    constructor (exam: Exam, studentId: string, now: int)
      requires |exam.questions| >= 1
      ensures Valid()
      ensures this.exam == exam && this.studentId == studentId
      ensures currentQuestionIndex == 0 && answers == map[]
      ensures timeLeft == exam.duration * 60 && !isCheatDetected
      ensures finished == if timeLeft <= 0 then Some(ResultOf(exam, studentId, map[], false, now)) else None
    {
      this.exam := exam;
      this.studentId := studentId;
      currentQuestionIndex := 0;
      answers := map[];
      timeLeft := exam.duration * 60;
      isCheatDetected := false;
      finished := None;
      new;
      if timeLeft <= 0 {
        HandleSubmit(now);
      }
    }

    /** Choosing option `idx` records it for the current question's id, replacing an earlier choice. */
    method SelectAnswer(idx: int)
      requires Valid() && finished.None?
      modifies this`answers
      ensures Valid()
      ensures answers == old(answers)[CurrentQuestion().id := idx]
    {
      answers := answers[exam.questions[currentQuestionIndex].id := idx];
    }

    /** Previous: one question back, never before the first. */
    method PreviousQuestion()
      requires Valid() && finished.None?
      modifies this`currentQuestionIndex
      ensures Valid()
      ensures currentQuestionIndex == if old(currentQuestionIndex) == 0 then 0 else old(currentQuestionIndex) - 1
    {
      currentQuestionIndex := if currentQuestionIndex - 1 > 0 then currentQuestionIndex - 1 else 0;
    }

    /** Next: offered on every question but the last, where Submit takes its place. */
    method NextQuestion()
      requires Valid() && finished.None?
      requires currentQuestionIndex != |exam.questions| - 1
      modifies this`currentQuestionIndex
      ensures Valid()
      ensures currentQuestionIndex == old(currentQuestionIndex) + 1
    {
      currentQuestionIndex := currentQuestionIndex + 1;
    }

    /** A visibility change that hides the page sets the cheat flag, which nothing clears. */
    method VisibilityChange(hidden: bool)
      requires Valid() && finished.None?
      modifies this`isCheatDetected
      ensures Valid()
      ensures isCheatDetected == (old(isCheatDetected) || hidden)
    {
      if hidden {
        isCheatDetected := true;
      }
    }

    /** One second passes: the clock drops by one, and reaching zero submits. */
    method Tick(now: int)
      requires Valid() && finished.None?
      modifies this`timeLeft, this`finished
      ensures Valid()
      ensures timeLeft == old(timeLeft) - 1
      ensures finished == if timeLeft <= 0 then Some(ResultOf(exam, studentId, answers, isCheatDetected, now)) else None
    {
      timeLeft := timeLeft - 1;
      if timeLeft <= 0 {
        HandleSubmit(now);
      }
    }

    /** Submit: score the recorded answers and hand the result on. */
    method HandleSubmit(now: int)
      requires |exam.questions| >= 1 && 0 <= currentQuestionIndex < |exam.questions| && finished.None?
      modifies this`finished
      ensures Valid()
      ensures finished == Some(ResultOf(exam, studentId, answers, isCheatDetected, now))
    {
      var correct := CountCorrect(exam.questions, answers);
      CorrectCountBounds(exam.questions, answers);
      finished := Some(ExamResult(studentId, exam.id, Percentage(correct, |exam.questions|), isCheatDetected, now));
    }
  }
}
