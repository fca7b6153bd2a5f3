/** The records the compliance pipeline stores (designations, assessments
    and their responses) and the per-customer aggregator
    `calculateComplianceStatus`. */
module Nis2Compliance {
  import opened Common
  import opened Text
  import opened Dicts
  import opened Sorting
  import opened Nis2Designation
  import opened Nis2Scoring

  /** A stored designation. `applicableControls` is a copy of the controls
      that applied when it was created. Timestamps are milliseconds. */
  datatype Designation = Designation(
    id: string,
    customerId: string,
    country: string,
    industry: string,
    companySize: string,
    hasOT: Option<bool>,
    otDetails: OtDetails,
    designation: Tier,
    applicableControls: seq<Control>,
    createdAt: int,
    updatedAt: int)

  /** An answer: typed text, or the record stored for an uploaded file. */
  datatype Answer = TextAnswer(text: string) | FileAnswer(fileName: string, evidenceId: string)

  /** A recorded response to one question. */
  datatype Response = Response(answer: Answer, timestamp: int, questionText: string)

  const IN_PROGRESS := "in_progress"

  datatype Assessment = Assessment(
    id: string,
    customerId: string,
    designationId: string,
    status: string,
    responses: Dict<string, Response>,
    currentQuestion: nat,
    totalQuestions: nat,
    progress: nat,
    createdAt: int,
    updatedAt: int)

  /** The per-control result: the scorer's analysis, or `NotAssessed`. */
  datatype ControlStatus = ControlStatus(controlId: string, status: Status, score: nat, gaps: seq<Gap>)

  datatype Maturity = Advanced | Intermediate | Basic

  /** The aggregate. `overallScore` is `None` where the source computes
      `NaN` (a designation with no applicable controls). */
  datatype ComplianceStatus = ComplianceStatus(
    customerId: string,
    overallScore: Option<nat>,
    maturityLevel: Maturity,
    compliantControls: nat,
    totalControls: nat,
    controlStatuses: seq<ControlStatus>,
    lastUpdated: int)

  /** `response.answer || ''` as `join` renders it: text as is (the empty
      string is falsy and becomes the empty string), a file record as
      `[object Object]`. */
  function AnswerText(a: Answer): string
  {
    match a
    case TextAnswer(t) => t
    case FileAnswer(_, _) => "[object Object]"
  }

  /** The test `qId.startsWith(prefix)`. */
  function HasPrefix(prefix: string): string -> bool
  {
    qId => StartsWith(qId, prefix)
  }

  /** The question ids of `responses` that start with `controlId`, in
      entry order. */
  function ControlQuestionIds(responses: Dict<string, Response>, controlId: string): (r: seq<string>)
    ensures forall i :: 0 <= i < |r| ==> StartsWith(r[i], controlId) && r[i] in responses.keys
  {
    Filter(responses.keys, HasPrefix(controlId))
  }

  /** The answers to those questions joined by single spaces. */
  function CombinedAnswer(responses: Dict<string, Response>, ids: seq<string>): string
    requires |ids| >= 1
    requires forall i :: 0 <= i < |ids| ==> ids[i] in responses.vals
  {
    Join(seq(|ids|, i requires 0 <= i < |ids| => AnswerText(responses.vals[ids[i]].answer)), ' ')
  }

  /** The status of a control nobody has answered. */
  function NotAssessedStatus(control: Control): (s: ControlStatus)
    ensures s.controlId == control.id && s.status == NotAssessed && s.score == 0
    ensures |s.gaps| == |control.requirements|
    ensures forall i :: 0 <= i < |s.gaps| ==>
              s.gaps[i] == Gap(control.requirements[i], "Not yet assessed",
                               ["Complete assessment for this control"])
  {
    ControlStatus(control.id, NotAssessed, 0,
      seq(|control.requirements|, i requires 0 <= i < |control.requirements| =>
        Gap(control.requirements[i], "Not yet assessed", ["Complete assessment for this control"])))
  }

  /** The status of one control, from the responses of the latest
      assessment. */
  function ControlStatusFor(control: Control, responses: Dict<string, Response>): ControlStatus
    requires responses.Valid()
  {
    var ids := ControlQuestionIds(responses, control.id);
    if ids == [] then NotAssessedStatus(control)
    else
      var a := Analyze(CombinedAnswer(responses, ids), control.requirements);
      ControlStatus(control.id, a.status, a.score, a.gaps)
  }

  /** `designation.applicableControls.map(...)`. */
  function ControlStatuses(controls: seq<Control>, responses: Dict<string, Response>): (r: seq<ControlStatus>)
    requires responses.Valid()
    ensures |r| == |controls|
    ensures forall i :: 0 <= i < |r| ==> r[i] == ControlStatusFor(controls[i], responses)
  {
    seq(|controls|, i requires 0 <= i < |controls| => ControlStatusFor(controls[i], responses))
  }

  /** The comparator `new Date(b.updatedAt) - new Date(a.updatedAt)`,
      as "a sorts no later than b". */
  function NewerFirst(): (Assessment, Assessment) -> bool
  {
    (a: Assessment, b: Assessment) => b.updatedAt - a.updatedAt <= 0
  }

  /** The test `a.customerId === customerId`. */
  function OfCustomer(customerId: string): Assessment -> bool
  {
    (a: Assessment) => a.customerId == customerId
  }

  /** The first of the customer's assessments after sorting newest first. */
  function Latest(customerAssessments: seq<Assessment>): (a: Assessment)
    requires |customerAssessments| >= 1
  {
    Sort(customerAssessments, NewerFirst())[0]
  }

  function ScoreOf(): ControlStatus -> nat
  {
    (s: ControlStatus) => s.score
  }

  function IsCompliant(): ControlStatus -> bool
  {
    (s: ControlStatus) => s.status == Compliant
  }

  /** The aggregate figures over the control statuses. */
  function Aggregate(customerId: string, statuses: seq<ControlStatus>, now: int): ComplianceStatus
  {
    var sum, n := Sum(statuses, ScoreOf()), |statuses|;
    ComplianceStatus(
      customerId,
      if n == 0 then None else Some(RoundDiv(sum, n)),
      if n > 0 && sum >= 80 * n then Advanced
      else if n > 0 && sum >= 60 * n then Intermediate
      else Basic,
      |Filter(statuses, IsCompliant())|,
      n,
      statuses,
      now)
  }

  /** Every assessment's responses are a well-formed dictionary. */
  ghost predicate ResponsesValid(assessments: seq<Assessment>)
  {
    forall i :: 0 <= i < |assessments| ==> assessments[i].responses.Valid()
  }

  /** `calculateComplianceStatus(customerId)` over the stored designation of
      the customer and `Object.values(assessments)`; `now` is the clock. */
  function CalculateComplianceStatus(designation: Option<Designation>, assessments: seq<Assessment>,
                                     customerId: string, now: int): Option<ComplianceStatus>
    requires ResponsesValid(assessments)
  {
    var mine := Filter(assessments, OfCustomer(customerId));
    if designation.None? || |mine| == 0 then None
    else
      var latest := Latest(mine);
      SortMembers(mine, NewerFirst(), 0);
      Some(Aggregate(customerId, ControlStatuses(designation.value.applicableControls, latest.responses), now))
  }

  /** The newest-first comparator is a total preorder. */
  lemma NewerFirstIsTotalPreorder()
    ensures TotalPreorder(NewerFirst())
  {
  }

  /** The latest assessment is one of the customer's and no other of them
      was updated later. */
  lemma LatestIsNewest(customerAssessments: seq<Assessment>)
    requires |customerAssessments| >= 1
    ensures Latest(customerAssessments) in customerAssessments
    ensures forall i :: 0 <= i < |customerAssessments| ==>
              customerAssessments[i].updatedAt <= Latest(customerAssessments).updatedAt
  {
    var sorted := Sort(customerAssessments, NewerFirst());
    SortMembers(customerAssessments, NewerFirst(), 0);
    NewerFirstIsTotalPreorder();
    SortSorted(customerAssessments, NewerFirst());
    forall i | 0 <= i < |customerAssessments|
      ensures customerAssessments[i].updatedAt <= sorted[0].updatedAt
    {
      assert customerAssessments[i] in multiset(sorted);
      var k :| 0 <= k < |sorted| && sorted[k] == customerAssessments[i];
      if k > 0 {
        assert NewerFirst()(sorted[0], sorted[k]);
      }
    }
  }

  /** There is no result without a designation or without any assessment
      of the customer; otherwise there is one status per applicable control,
      in order, each for its control. */
  lemma ComplianceShape(designation: Option<Designation>, assessments: seq<Assessment>,
                        customerId: string, now: int)
    requires ResponsesValid(assessments)
    ensures var r := CalculateComplianceStatus(designation, assessments, customerId, now);
      (r.None? <==> designation.None? ||
                    forall i :: 0 <= i < |assessments| ==> assessments[i].customerId != customerId) &&
      (r.Some? ==>
         r.value.customerId == customerId &&
         r.value.totalControls == |designation.value.applicableControls| &&
         |r.value.controlStatuses| == r.value.totalControls &&
         forall i :: 0 <= i < r.value.totalControls ==>
           r.value.controlStatuses[i].controlId == designation.value.applicableControls[i].id)
  {
    var mine := Filter(assessments, OfCustomer(customerId));
    forall i | 0 <= i < |assessments| && assessments[i].customerId == customerId
      ensures assessments[i] in mine
    {
    }
    if |mine| != 0 {
      assert OfCustomer(customerId)(mine[0]);
    }
  }

  /** The latest assessment decides the result: it is the customer's and
      newest, and each control's status comes from its responses. */
  lemma ComplianceUsesLatest(designation: Designation, assessments: seq<Assessment>,
                             customerId: string, now: int)
    requires ResponsesValid(assessments)
    requires exists i :: 0 <= i < |assessments| && assessments[i].customerId == customerId
    ensures var mine := Filter(assessments, OfCustomer(customerId));
      |mine| >= 1 &&
      Latest(mine) in assessments &&
      Latest(mine).customerId == customerId &&
      (forall i :: 0 <= i < |assessments| && assessments[i].customerId == customerId ==>
         assessments[i].updatedAt <= Latest(mine).updatedAt) &&
      Latest(mine).responses.Valid() &&
      CalculateComplianceStatus(Some(designation), assessments, customerId, now).Some? &&
      CalculateComplianceStatus(Some(designation), assessments, customerId, now).value.controlStatuses ==
        ControlStatuses(designation.applicableControls, Latest(mine).responses)
  {
    var mine := Filter(assessments, OfCustomer(customerId));
    LatestOfCustomer(assessments, customerId);
    var k :| 0 <= k < |assessments| && assessments[k] == Latest(mine);
  }

  /** The customer's latest assessment is the customer's newest one. */
  lemma LatestOfCustomer(assessments: seq<Assessment>, customerId: string)
    requires exists i :: 0 <= i < |assessments| && assessments[i].customerId == customerId
    ensures var mine := Filter(assessments, OfCustomer(customerId));
      |mine| >= 1 &&
      Latest(mine) in assessments &&
      Latest(mine).customerId == customerId &&
      (forall i :: 0 <= i < |assessments| && assessments[i].customerId == customerId ==>
         assessments[i].updatedAt <= Latest(mine).updatedAt)
  {
    var mine := Filter(assessments, OfCustomer(customerId));
    var i :| 0 <= i < |assessments| && assessments[i].customerId == customerId;
    assert assessments[i] in mine;
    LatestIsNewest(mine);
    assert OfCustomer(customerId)(Latest(mine));
    forall j | 0 <= j < |assessments| && assessments[j].customerId == customerId
      ensures assessments[j].updatedAt <= Latest(mine).updatedAt
    {
      assert assessments[j] in mine;
    }
  }

  /** A control is not assessed iff no response id starts with its id; it
      then scores 0 with one 'Not yet assessed' gap per requirement.
      Otherwise its status is the scorer's on the combined answers, never
      `NotAssessed`. */
  lemma ControlStatusCases(control: Control, responses: Dict<string, Response>)
    requires responses.Valid()
    ensures var s := ControlStatusFor(control, responses);
      s.controlId == control.id &&
      (s.status == NotAssessed <==>
         forall i :: 0 <= i < |responses.keys| ==> !StartsWith(responses.keys[i], control.id)) &&
      (s.status == NotAssessed ==> s.score == 0 && |s.gaps| == |control.requirements|) &&
      (ControlQuestionIds(responses, control.id) != [] ==>
         var a := Analyze(CombinedAnswer(responses, ControlQuestionIds(responses, control.id)), control.requirements);
         s.status == a.status && s.score == a.score && s.gaps == a.gaps) &&
      s.score <= 100
  {
    var ids := ControlQuestionIds(responses, control.id);
    if ids == [] {
      forall i | 0 <= i < |responses.keys| ensures !StartsWith(responses.keys[i], control.id) {
        FilterMember(responses.keys, HasPrefix(control.id), responses.keys[i]);
      }
    } else {
      assert StartsWith(ids[0], control.id);
      var a := Analyze(CombinedAnswer(responses, ids), control.requirements);
      ScoreIsCapped(CombinedAnswer(responses, ids), control.requirements);
      var k :| 0 <= k < |responses.keys| && responses.keys[k] == ids[0];
    }
  }

  /** overallScore is the rounded mean of the control scores (absent when
      there are no controls) and at most 100; maturity compares the
      unrounded mean with 80 and 60; compliantControls never exceeds
      totalControls. */
  lemma AggregateFigures(customerId: string, statuses: seq<ControlStatus>, now: int)
    requires forall i :: 0 <= i < |statuses| ==> statuses[i].score <= 100
    ensures var c, sum, n := Aggregate(customerId, statuses, now), Sum(statuses, ScoreOf()), |statuses|;
      c.totalControls == n &&
      c.compliantControls <= n &&
      (c.overallScore.None? <==> n == 0) &&
      (c.overallScore.Some? ==>
         2 * n * c.overallScore.value <= 2 * sum + n < 2 * n * c.overallScore.value + 2 * n &&
         c.overallScore.value <= 100) &&
      (c.maturityLevel == Advanced <==> n > 0 && sum >= 80 * n) &&
      (c.maturityLevel == Intermediate <==> n > 0 && 60 * n <= sum < 80 * n) &&
      (c.maturityLevel == Basic <==> n == 0 || sum < 60 * n)
  {
    var sum, n := Sum(statuses, ScoreOf()), |statuses|;
    SumBound(statuses, ScoreOf(), 100);
    if n > 0 {
      var r := RoundDiv(sum, n);
      assert 2 * n * r < 2 * n * 101;
      MulCancel(2 * n, r, 101);
    }
  }
}
