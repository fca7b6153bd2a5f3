/** The NIS2 provider's state (designations by customer, assessments and
    evidence by id) and the operations that change it. Ids (`uuidv4()`)
    and the clock are parameters. */
module Nis2Store {
  import opened Common
  import opened Text
  import opened Dicts
  import opened Nis2Designation
  import opened Nis2Scoring
  import opened Nis2Compliance
  import opened Nis2Roadmap

  /** The fields of an uploaded file that `submitEvidence` copies. */
  datatype EvidenceData = EvidenceData(kind: string, fileName: string, fileSize: nat, description: string)

  datatype Evidence = Evidence(
    id: string,
    assessmentId: string,
    questionId: string,
    kind: string,
    fileName: string,
    fileSize: nat,
    description: string,
    uploadedAt: int)

  /** The questions budgeted per applicable control. */
  const QUESTIONS_PER_CONTROL: nat := 4

  /** The designation record `createCustomerDesignation` builds. */
  function NewDesignation(customerId: string, form: FormData, id: string, now: int): (d: Designation)
    ensures d.id == id && d.customerId == customerId
    ensures d.designation == DetermineDesignation(form)
    ensures d.applicableControls == ApplicableControls(form)
    ensures d.country == form.country && d.industry == form.industry && d.hasOT == form.hasOT
    ensures d.createdAt == d.updatedAt == now
  {
    Designation(id, customerId, form.country, form.industry, form.companySize, form.hasOT,
      form.otDetails, DetermineDesignation(form), ApplicableControls(form), now, now)
  }

  /** The assessment `startAssessment` builds for a designation. */
  function NewAssessment(d: Designation, id: string, now: int): (a: Assessment)
    ensures a.id == id && a.customerId == d.customerId && a.designationId == d.id
    ensures a.status == IN_PROGRESS && a.responses.Valid() && a.responses.keys == []
    ensures a.totalQuestions == QUESTIONS_PER_CONTROL * |d.applicableControls|
    ensures a.currentQuestion == 0 && a.progress == 0
  {
    Assessment(id, d.customerId, d.id, IN_PROGRESS, Empty(), 0,
      |d.applicableControls| * 4, 0, now, now)
  }

  /** The assessment with `response` recorded under `questionId`. */
  function WithResponse(a: Assessment, questionId: string, response: Response, now: int): (b: Assessment)
    ensures b.responses.Get(questionId) == Some(response)
    ensures forall q :: q != questionId ==> b.responses.Get(q) == a.responses.Get(q)
    ensures b.updatedAt == now
    ensures b == a.(responses := b.responses, updatedAt := now)
  {
    a.(responses := a.responses.Put(questionId, response), updatedAt := now)
  }

  class Nis2Store {
    /** Designations, keyed by customer id. */
    var designations: Dict<string, Designation>
    /** Assessments, keyed by assessment id. */
    var assessments: Dict<string, Assessment>
    /** Evidence records, keyed by evidence id. */
    var evidence: Dict<string, Evidence>

    ghost predicate Valid()
      reads this
    {
      designations.Valid() && assessments.Valid() && evidence.Valid() &&
      ResponsesValid(assessments.Values())
    }

    /** The empty state the provider starts with. */
    constructor()
      ensures Valid()
      ensures designations.keys == [] && assessments.keys == [] && evidence.keys == []
    {
      designations := Empty();
      assessments := Empty();
      evidence := Empty();
    }

    /** `createCustomerDesignation`: stores a new designation under the
        customer, replacing any earlier one. */
    method CreateCustomerDesignation(customerId: string, form: FormData, id: string, now: int)
      returns (d: Designation)
      requires Valid()
      modifies this
      ensures Valid()
      ensures d == NewDesignation(customerId, form, id, now)
      ensures designations == old(designations).Put(customerId, d)
      ensures assessments == old(assessments) && evidence == old(evidence)
    {
      d := NewDesignation(customerId, form, id, now);
      PutValid(designations, customerId, d);
      designations := designations.Put(customerId, d);
    }

    /** `startAssessment`: `null` for a customer without a designation;
        otherwise a new in-progress assessment stored under its id. */
    method StartAssessment(customerId: string, id: string, now: int) returns (a: Option<Assessment>)
      requires Valid()
      modifies this
      ensures Valid()
      ensures a.None? <==> customerId !in old(designations).vals
      ensures a.Some? ==> a.value == NewAssessment(old(designations).vals[customerId], id, now)
      ensures assessments == if a.Some? then old(assessments).Put(id, a.value) else old(assessments)
      ensures designations == old(designations) && evidence == old(evidence)
    {
      var designation := designations.Get(customerId);
      if designation.None? {
        return None;
      }
      var created := NewAssessment(designation.value, id, now);
      PutResponsesValid(assessments, id, created);
      assessments := assessments.Put(id, created);
      a := Some(created);
    }

    /** `updateAssessmentResponse`: records the response and the time.
        Spreading `prev[assessmentId].responses` of an absent assessment
        throws, which leaves the state as it was; `ok` says which. */
    method UpdateAssessmentResponse(assessmentId: string, questionId: string, response: Response, now: int)
      returns (ok: bool)
      requires Valid()
      modifies this
      ensures Valid()
      ensures ok <==> assessmentId in old(assessments).vals
      ensures assessments == if ok
        then old(assessments).Put(assessmentId, WithResponse(old(assessments).vals[assessmentId], questionId, response, now))
        else old(assessments)
      ensures designations == old(designations) && evidence == old(evidence)
    {
      var current := assessments.Get(assessmentId);
      if current.None? {
        return false;
      }
      AssessmentResponsesValid(assessments, assessmentId);
      var updated := WithResponse(current.value, questionId, response, now);
      PutValid(current.value.responses, questionId, response);
      PutResponsesValid(assessments, assessmentId, updated);
      assessments := assessments.Put(assessmentId, updated);
      ok := true;
    }

    /** `submitEvidence`: stores the evidence record under a new id; the
        assessment is not looked up. */
    method SubmitEvidence(assessmentId: string, questionId: string, data: EvidenceData, id: string, now: int)
      returns (e: Evidence)
      requires Valid()
      modifies this
      ensures Valid()
      ensures e == Evidence(id, assessmentId, questionId, data.kind, data.fileName, data.fileSize,
                            data.description, now)
      ensures evidence == old(evidence).Put(id, e)
      ensures designations == old(designations) && assessments == old(assessments)
    {
      e := Evidence(id, assessmentId, questionId, data.kind, data.fileName, data.fileSize,
        data.description, now);
      PutValid(evidence, id, e);
      evidence := evidence.Put(id, e);
    }

    /** `calculateComplianceStatus` over the current state. */
    method ComplianceStatusOf(customerId: string, now: int) returns (c: Option<ComplianceStatus>)
      requires Valid()
      ensures c == CalculateComplianceStatus(designations.Get(customerId), assessments.Values(), customerId, now)
      ensures c.None? <==> (customerId !in designations.vals ||
                forall k :: k in assessments.vals ==> assessments.vals[k].customerId != customerId)
    {
      c := CalculateComplianceStatus(designations.Get(customerId), assessments.Values(), customerId, now);
      ComplianceShape(designations.Get(customerId), assessments.Values(), customerId, now);
      var vs := assessments.Values();
      if c.Some? {
        var i :| 0 <= i < |vs| && vs[i].customerId == customerId;
        assert assessments.keys[i] in assessments.vals;
      } else if customerId in designations.vals {
        forall k | k in assessments.vals ensures assessments.vals[k].customerId != customerId {
          var i :| 0 <= i < |assessments.keys| && assessments.keys[i] == k;
          assert vs[i] == assessments.vals[k];
        }
      }
    }

    /** `generateComplianceRoadmap`: the compliance status, then the
        roadmap built from it. */
    method GenerateComplianceRoadmap(customerId: string, now: int) returns (r: Option<Roadmap>)
      requires Valid()
      ensures r == RoadmapFor(customerId,
        CalculateComplianceStatus(designations.Get(customerId), assessments.Values(), customerId, now), now)
    {
      var compliance := ComplianceStatusOf(customerId, now);
      r := Nis2Roadmap.GenerateComplianceRoadmap(customerId, compliance, now);
    }
  }

  lemma AssessmentResponsesValid(d: Dict<string, Assessment>, k: string)
    requires d.Valid() && ResponsesValid(d.Values()) && k in d.vals
    ensures d.vals[k].responses.Valid()
  {
    var i :| 0 <= i < |d.keys| && d.keys[i] == k;
    assert d.Values()[i] == d.vals[k];
  }

  /** Storing an assessment whose responses are well formed keeps every
      stored assessment's responses well formed. */
  lemma PutResponsesValid(d: Dict<string, Assessment>, k: string, a: Assessment)
    requires d.Valid() && ResponsesValid(d.Values()) && a.responses.Valid()
    ensures d.Put(k, a).Valid() && ResponsesValid(d.Put(k, a).Values())
  {
    PutValid(d, k, a);
    var vs := d.Put(k, a).Values();
    forall i | 0 <= i < |vs| ensures vs[i].responses.Valid() {
      var key := d.Put(k, a).keys[i];
      if key != k {
        var j :| 0 <= j < |d.keys| && d.keys[j] == key;
        assert d.Values()[j] == d.vals[key];
      }
    }
  }

  /** Answering any question of a control (its id starts with the
      control's id) makes the control assessed in the next compliance
      calculation over that assessment. */
  lemma AnsweredControlIsAssessed(control: Control, a: Assessment, questionId: string, response: Response, now: int)
    requires a.responses.Valid() && StartsWith(questionId, control.id)
    ensures WithResponse(a, questionId, response, now).responses.Valid()
    ensures ControlStatusFor(control, WithResponse(a, questionId, response, now).responses).status != NotAssessed
  {
    var responses := WithResponse(a, questionId, response, now).responses;
    PutValid(a.responses, questionId, response);
    ControlStatusCases(control, responses);
    assert questionId in responses.vals;
    var i :| 0 <= i < |responses.keys| && responses.keys[i] == questionId;
  }
}
