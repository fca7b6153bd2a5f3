/** The guided questionnaire (`AIAssessmentInterface`): the questions
    generated for each applicable control, the (control, question) cursor
    that `handleNext` advances, the progress figure, and `handleResponse`,
    which records an answer locally and in the provider before moving on. */
module AssessmentInterface {
  import opened Common
  import opened Text
  import opened Dicts
  import opened Nis2Designation
  import opened Nis2Scoring
  import opened Nis2Compliance
  import opened Nis2Store

  datatype QuestionKind = TextQuestion | FileQuestion

  /** A generated question; its guidance and placeholder texts are display
      only and not modelled. */
  datatype Question = Question(id: string, kind: QuestionKind, question: string)

  /** `${control.id}-${suffix}`. */
  function QuestionId(controlId: string, suffix: string): string
  {
    controlId + "-" + suffix
  }

  /** The suffix of the question for requirement `i`: `req-${index}`. */
  function RequirementSuffix(i: nat): string
  {
    "req-" + NatToString(i)
  }

  const IMPLEMENTATION_PROMPT := "How has your organization implemented the requirement: \""
  const EVIDENCE_QUESTION := "Please provide supporting documentation or evidence"
  const REQUIREMENT_PROMPT := "How do you address: \""

  /** `generateQuestions`: nothing for an absent control; otherwise the
      implementation question (text), the evidence question (file), then
      one text question per requirement, in requirement order. */
  function GenerateQuestions(control: Option<Control>): (qs: seq<Question>)
    ensures control.None? ==> qs == []
    ensures control.Some? ==> |qs| == 2 + |control.value.requirements|
  {
    if control.None? then []
    else
      var c := control.value;
      [Question(QuestionId(c.id, "implementation"), TextQuestion,
         IMPLEMENTATION_PROMPT + c.title + "\"?"),
       Question(QuestionId(c.id, "evidence"), FileQuestion,
         EVIDENCE_QUESTION)] +
      seq(|c.requirements|, i requires 0 <= i < |c.requirements| =>
        Question(QuestionId(c.id, RequirementSuffix(i)), TextQuestion,
          REQUIREMENT_PROMPT + c.requirements[i] + "\"?"))
  }

  /** The questions of a control: only the evidence question asks for a
      file, and question `2 + i` is about requirement `i`. */
  lemma QuestionsOfControl(c: Control)
    ensures var qs := GenerateQuestions(Some(c));
      |qs| == 2 + |c.requirements| &&
      qs[0].id == c.id + "-implementation" && qs[0].kind == TextQuestion &&
      qs[1].id == c.id + "-evidence" && qs[1].kind == FileQuestion &&
      (forall i :: 0 <= i < |qs| ==> (qs[i].kind == FileQuestion <==> i == 1)) &&
      (forall i :: 0 <= i < |c.requirements| ==>
         qs[2 + i].id == c.id + "-req-" + NatToString(i) &&
         qs[2 + i].question == REQUIREMENT_PROMPT + c.requirements[i] + "\"?")
  {
    var qs := GenerateQuestions(Some(c));
    assert c.id + "-" + "implementation" == c.id + "-implementation";
    assert c.id + "-" + "evidence" == c.id + "-evidence";
    forall i | 0 <= i < |c.requirements|
      ensures qs[2 + i].id == c.id + "-req-" + NatToString(i)
    {
      assert c.id + "-" + ("req-" + NatToString(i)) == c.id + "-req-" + NatToString(i);
    }
  }

  /** Every question id starts with its control's id, which is how the
      compliance calculation finds the answers that belong to a control. */
  lemma QuestionIdsStartWithControl(c: Control)
    ensures var qs := GenerateQuestions(Some(c));
      forall i :: 0 <= i < |qs| ==> StartsWith(qs[i].id, c.id)
  {
    var qs := GenerateQuestions(Some(c));
    forall i | 0 <= i < |qs| ensures StartsWith(qs[i].id, c.id) {
      var suffix := qs[i].id[|c.id|..];
      assert qs[i].id == c.id + suffix;
    }
  }

  lemma PrefixCancel(p: string, a: string, b: string)
    requires p + a == p + b
    ensures a == b
  {
    assert a == (p + a)[|p|..];
    assert b == (p + b)[|p|..];
  }

  /** The questions of one control have distinct ids, so no answer
      overwrites another's. */
  lemma QuestionIdsDistinct(c: Control)
    ensures var qs := GenerateQuestions(Some(c));
      forall i, j :: 0 <= i < j < |qs| ==> qs[i].id != qs[j].id
  {
    var qs := GenerateQuestions(Some(c));
    forall i, j | 0 <= i < j < |qs| ensures qs[i].id != qs[j].id {
      var si := if i == 0 then "implementation" else if i == 1 then "evidence" else RequirementSuffix(i - 2);
      var sj := if j == 1 then "evidence" else RequirementSuffix(j - 2);
      assert qs[i].id == QuestionId(c.id, si) && qs[j].id == QuestionId(c.id, sj);
      if si == sj {
        assert si[0] == sj[0];
        assert si == "req-" + NatToString(i - 2) && sj == "req-" + NatToString(j - 2);
        PrefixCancel("req-", NatToString(i - 2), NatToString(j - 2));
        NatToStringInjective(i - 2, j - 2);
      }
      if qs[i].id == qs[j].id {
        PrefixCancel(c.id + "-", si, sj);
      }
    }
  }

  /** `applicableControls[currentControlIndex]`, absent past the end. */
  function CurrentControl(controls: seq<Control>, ci: nat): (r: Option<Control>)
    ensures r.Some? <==> ci < |controls|
  {
    if ci < |controls| then Some(controls[ci]) else None
  }

  /** `generateQuestions(currentControl)`. */
  function CurrentQuestions(controls: seq<Control>, ci: nat): seq<Question>
  {
    GenerateQuestions(CurrentControl(controls, ci))
  }

  /** The (control, question) cursor. */
  datatype Cursor = Cursor(controlIndex: nat, questionIndex: nat)

  /** What `handleNext` does to the cursor: the next question of the
      control, else the first question of the next control, else the
      cursor stays and `onComplete` is called (`done`). */
  function Advance(controls: seq<Control>, c: Cursor): (Cursor, bool)
  {
    if c.questionIndex < |CurrentQuestions(controls, c.controlIndex)| - 1 then
      (Cursor(c.controlIndex, c.questionIndex + 1), false)
    else if c.controlIndex < |controls| - 1 then
      (Cursor(c.controlIndex + 1, 0), false)
    else
      (c, true)
  }

  /** Lexicographic order on cursors. */
  predicate NotAfter(a: Cursor, b: Cursor)
  {
    a.controlIndex < b.controlIndex ||
    (a.controlIndex == b.controlIndex && a.questionIndex <= b.questionIndex)
  }

  /** The cursor never moves backwards, and it moves forwards unless the
      questionnaire is complete. */
  lemma AdvanceMovesForward(controls: seq<Control>, c: Cursor)
    ensures NotAfter(c, Advance(controls, c).0)
    ensures !Advance(controls, c).1 <==> Advance(controls, c).0 != c
  {
  }

  /** A cursor that points at an existing question. */
  predicate OnQuestion(controls: seq<Control>, c: Cursor)
  {
    c.controlIndex < |controls| && c.questionIndex < |CurrentQuestions(controls, c.controlIndex)|
  }

  /** Advancing from a question lands on a question. */
  lemma AdvanceStaysOnQuestions(controls: seq<Control>, c: Cursor)
    requires OnQuestion(controls, c)
    ensures OnQuestion(controls, Advance(controls, c).0)
  {
  }

  /** The number of questions of the controls `controls[..n]`: two per
      control plus one per requirement, as `GenerateQuestions` promises. */
  function QuestionsBefore(controls: seq<Control>, n: nat): nat
    requires n <= |controls|
  {
    if n == 0 then 0 else QuestionsBefore(controls, n - 1) + 2 + |controls[n - 1].requirements|
  }

  /** `totalQuestions`: the questions of all applicable controls. */
  function TotalQuestions(controls: seq<Control>): nat
  {
    QuestionsBefore(controls, |controls|)
  }

  /** `completedQuestions` as written: the control index times the CURRENT
      control's question count, plus the question index. */
  function CompletedAsWritten(controls: seq<Control>, c: Cursor): nat
  {
    c.controlIndex * |CurrentQuestions(controls, c.controlIndex)| + c.questionIndex
  }

  /** `progress` as written: `Math.round(completed / total * 100)`, or 0
      without questions. */
  function ProgressAsWritten(controls: seq<Control>, c: Cursor): nat
  {
    var total := TotalQuestions(controls);
    if total > 0 then RoundDiv(100 * CompletedAsWritten(controls, c), total) else 0
  }

  /** The questions that precede the cursor: those of the earlier controls,
      then the earlier questions of the current control. */
  function Completed(controls: seq<Control>, c: Cursor): nat
    requires c.controlIndex <= |controls|
  {
    QuestionsBefore(controls, c.controlIndex) + c.questionIndex
  }

  /** The progress the bar is meant to show: the share of questions before
      the cursor. */
  function Progress(controls: seq<Control>, c: Cursor): (p: nat)
    requires OnQuestion(controls, c)
    ensures p <= 100
  {
    var total := TotalQuestions(controls);
    QuestionsBeforeMonotone(controls, c.controlIndex + 1, |controls|);
    Percent(Completed(controls, c), total)
  }

  lemma {:induction false} QuestionsBeforeMonotone(controls: seq<Control>, m: nat, n: nat)
    requires m <= n <= |controls|
    ensures QuestionsBefore(controls, m) <= QuestionsBefore(controls, n)
    decreases n - m
  {
    if m < n {
      QuestionsBeforeMonotone(controls, m, n - 1);
    }
  }

  /** Each step of the cursor completes exactly one more question, so the
      intended progress never decreases. */
  lemma AdvanceCompletesOne(controls: seq<Control>, c: Cursor)
    requires OnQuestion(controls, c) && !Advance(controls, c).1
    ensures Completed(controls, Advance(controls, c).0) == Completed(controls, c) + 1
    ensures Progress(controls, c) <= Progress(controls, Advance(controls, c).0)
  {
    var n := Advance(controls, c).0;
    var qs := CurrentQuestions(controls, c.controlIndex);
    if n.controlIndex != c.controlIndex {
      assert qs == GenerateQuestions(Some(controls[c.controlIndex]));
      assert c.questionIndex + 1 == |qs|;
      assert QuestionsBefore(controls, n.controlIndex) == QuestionsBefore(controls, c.controlIndex) + |qs|;
    }
    PercentMonotone(Completed(controls, c), Completed(controls, n), TotalQuestions(controls));
  }

  /** When every control has as many requirements as the first, the
      formula as written counts exactly the questions before the cursor. */
  lemma {:induction false} UniformControlsAgree(controls: seq<Control>, c: Cursor)
    requires OnQuestion(controls, c)
    requires forall i :: 0 <= i < |controls| ==> |controls[i].requirements| == |controls[0].requirements|
    ensures CompletedAsWritten(controls, c) == Completed(controls, c)
    ensures ProgressAsWritten(controls, c) == Progress(controls, c)
  {
    var k := 2 + |controls[0].requirements|;
    UniformQuestionsBefore(controls, c.controlIndex, k);
  }

  lemma {:induction false} UniformQuestionsBefore(controls: seq<Control>, n: nat, k: nat)
    requires n <= |controls|
    requires forall i :: 0 <= i < |controls| ==> 2 + |controls[i].requirements| == k
    ensures QuestionsBefore(controls, n) == n * k
  {
    if n > 0 {
      UniformQuestionsBefore(controls, n - 1, k);
      assert QuestionsBefore(controls, n) == (n - 1) * k + k;
      assert (n - 1) * k + k == n * k;
    }
  }

  /** A control with no requirements (two questions) followed by one with
      ten (twelve questions). */
  function UnevenControls(): (cs: seq<Control>)
    ensures |cs| == 2 && |cs[0].requirements| == 0 && |cs[1].requirements| == 10
  {
    var a := Applicability(true, true, ALL_SECTORS, false);
    [Control("a", "F", "A", "", [], a),
     Control("b", "F", "B", "", ["r", "r", "r", "r", "r", "r", "r", "r", "r", "r"], a)]
  }

  /** On the last question of the second control the formula as written
      reports 23 of 14 questions done, a progress of 164%, where 13 of 14
      (93%) is meant. The cursor is reachable: `handleNext` moves from the
      start through every question before it. */
  lemma ProgressOverflowsWithUnevenControls()
    ensures var cs, c := UnevenControls(), Cursor(1, 11);
      OnQuestion(cs, c) &&
      CompletedAsWritten(cs, c) == 23 && TotalQuestions(cs) == 14 &&
      ProgressAsWritten(cs, c) == 164 && ProgressAsWritten(cs, c) > 100 &&
      Completed(cs, c) == 13 && Progress(cs, c) == 93
  {
    var cs := UnevenControls();
    assert |GenerateQuestions(Some(cs[0]))| == 2;
    assert |GenerateQuestions(Some(cs[1]))| == 12;
    assert QuestionsBefore(cs, 1) == 2;
    assert QuestionsBefore(cs, 2) == 14;
  }

  /** The questionnaire's state: the cursor, the answers given in this
      session, the analysis on display, and the number of times
      `onComplete` was called. */
  class AssessmentSession {
    const controls: seq<Control>
    const assessmentId: string
    const store: Nis2Store
    var controlIndex: nat
    var questionIndex: nat
    var responses: Dict<string, Response>
    var analysisResult: Option<Analysis>
    var completions: nat

    ghost predicate Valid()
      reads this, store
    {
      responses.Valid() && store.Valid()
    }

    function Position(): Cursor
      reads this
    {
      Cursor(controlIndex, questionIndex)
    }

    /** The component as first rendered for an assessment: the cursor at
        the start and the assessment's stored responses. */
    constructor(controls: seq<Control>, assessmentId: string, store: Nis2Store, initial: Dict<string, Response>)
      requires initial.Valid() && store.Valid()
      ensures Valid()
      ensures this.controls == controls && this.assessmentId == assessmentId && this.store == store
      ensures Position() == Cursor(0, 0) && responses == initial
      ensures analysisResult == None && completions == 0
    {
      this.controls := controls;
      this.assessmentId := assessmentId;
      this.store := store;
      controlIndex := 0;
      questionIndex := 0;
      responses := initial;
      analysisResult := None;
      completions := 0;
    }

    /** `handleNext`. */
    method HandleNext()
      modifies this
      ensures Position() == Advance(controls, old(Position())).0
      ensures completions == old(completions) + (if Advance(controls, old(Position())).1 then 1 else 0)
      ensures analysisResult == None
      ensures responses == old(responses)
    {
      var currentQuestions := GenerateQuestions(CurrentControl(controls, controlIndex));
      if questionIndex < |currentQuestions| - 1 {
        questionIndex := questionIndex + 1;
      } else if controlIndex < |controls| - 1 {
        controlIndex := controlIndex + 1;
        questionIndex := 0;
      } else {
        completions := completions + 1;
      }
      analysisResult := None;
    }

    /** `handleSkip` is `handleNext`. */
    method HandleSkip()
      modifies this
      ensures Position() == Advance(controls, old(Position())).0
      ensures completions == old(completions) + (if Advance(controls, old(Position())).1 then 1 else 0)
      ensures analysisResult == None
      ensures responses == old(responses)
    {
      HandleNext();
    }

    /** `handleResponse`: without a current question nothing happens.
        Otherwise the answer is recorded under the question's id here and
        in the provider; a non-blank text answer to a text question is
        analysed against the control's requirements (`shown`, displayed
        until the cursor moves) and the cursor advances; any other answer
        to a file question, or a blank one, advances at once. A file
        record given to a text question makes `response.trim()` throw
        after the answer is recorded, so the cursor stays. */
    method HandleResponse(answer: Answer, now: int) returns (shown: Option<Analysis>)
      requires Valid()
      modifies this, store
      ensures Valid()
      ensures var qs := CurrentQuestions(controls, old(controlIndex));
        if old(questionIndex) >= |qs| then
          shown == None && Position() == old(Position()) && responses == old(responses) &&
          store.assessments == old(store.assessments) && completions == old(completions)
        else
          var q, response := qs[old(questionIndex)], Response(answer, now, qs[old(questionIndex)].question);
          var advances := !(q.kind == TextQuestion && answer.FileAnswer?);
          responses == old(responses).Put(q.id, response) &&
          store.assessments == (if assessmentId in old(store.assessments).vals
            then old(store.assessments).Put(assessmentId,
                   WithResponse(old(store.assessments).vals[assessmentId], q.id, response, now))
            else old(store.assessments)) &&
          (shown.Some? <==> q.kind == TextQuestion && answer.TextAnswer? && !IsBlank(answer.text)) &&
          (shown.Some? ==> shown.value == Analyze(answer.text, controls[old(controlIndex)].requirements)) &&
          (advances ==> Position() == Advance(controls, old(Position())).0 &&
                        completions == old(completions) + (if Advance(controls, old(Position())).1 then 1 else 0)) &&
          (!advances ==> Position() == old(Position()) && completions == old(completions))
      ensures store.designations == old(store.designations) && store.evidence == old(store.evidence)
    {
      shown := None;
      var currentQuestions := GenerateQuestions(CurrentControl(controls, controlIndex));
      if questionIndex >= |currentQuestions| {
        return;
      }
      var currentQuestion := currentQuestions[questionIndex];
      RecordAnswer(currentQuestion, answer, now);
      shown := ReactToAnswer(currentQuestion.kind, answer);
    }

    /** The recording part of `handleResponse`: the answer stored under the
        question's id here and in the provider's assessment. */
    method RecordAnswer(q: Question, answer: Answer, now: int)
      requires Valid()
      modifies this, store
      ensures Valid()
      ensures responses == old(responses).Put(q.id, Response(answer, now, q.question))
      ensures store.assessments == (if assessmentId in old(store.assessments).vals
        then old(store.assessments).Put(assessmentId,
               WithResponse(old(store.assessments).vals[assessmentId], q.id, Response(answer, now, q.question), now))
        else old(store.assessments))
      ensures store.designations == old(store.designations) && store.evidence == old(store.evidence)
      ensures Position() == old(Position()) && completions == old(completions)
    {
      var responseData := Response(answer, now, q.question);
      PutValid(responses, q.id, responseData);
      responses := responses.Put(q.id, responseData);
      var _ := store.UpdateAssessmentResponse(assessmentId, q.id, responseData, now);
    }

    /** The reacting part of `handleResponse`, on the current control:
        analyse a non-blank text answer to a text question, then advance
        unless a file record was given to a text question. */
    method ReactToAnswer(kind: QuestionKind, answer: Answer) returns (shown: Option<Analysis>)
      requires controlIndex < |controls|
      modifies this
      ensures responses == old(responses)
      ensures shown.Some? <==> kind == TextQuestion && answer.TextAnswer? && !IsBlank(answer.text)
      ensures shown.Some? ==> shown.value == Analyze(answer.text, controls[old(controlIndex)].requirements)
      ensures !(kind == TextQuestion && answer.FileAnswer?) ==>
        Position() == Advance(controls, old(Position())).0 &&
        completions == old(completions) + (if Advance(controls, old(Position())).1 then 1 else 0)
      ensures kind == TextQuestion && answer.FileAnswer? ==>
        Position() == old(Position()) && completions == old(completions)
    {
      shown := None;
      if kind == TextQuestion && answer.TextAnswer? && !IsBlank(answer.text) {
        var analysis := AnalyzeResponse(answer.text, controls[controlIndex].requirements);
        analysisResult := Some(analysis);
        shown := Some(analysis);
      }
      if !(kind == TextQuestion && answer.FileAnswer?) {
        HandleNext();
      }
    }
  }

  /** Answering any question of a control, with the answer recorded in
      the assessment, makes that control assessed in the next compliance
      calculation over the assessment. */
  lemma AnsweringMarksControlAssessed(c: Control, k: nat, a: Assessment, answer: Answer, now: int)
    requires k < |GenerateQuestions(Some(c))| && a.responses.Valid()
    ensures var q := GenerateQuestions(Some(c))[k];
      var b := WithResponse(a, q.id, Response(answer, now, q.question), now);
      b.responses.Valid() && ControlStatusFor(c, b.responses).status != NotAssessed
  {
    var q := GenerateQuestions(Some(c))[k];
    QuestionIdsStartWithControl(c);
    AnsweredControlIsAssessed(c, a, q.id, Response(answer, now, q.question), now);
  }
}
