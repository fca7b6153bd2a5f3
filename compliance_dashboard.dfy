/** The compliance dashboard (`ComplianceDashboard`): the designation's
    applicable controls grouped by family, each shown with the status
    found for it in the compliance result, the family scores, and a
    preview of each control's gaps. */
module ComplianceDashboard {
  import opened Common
  import opened Dicts
  import opened Nis2Designation
  import opened Nis2Scoring
  import opened Nis2Compliance

  /** How many gap reasons the preview lists. */
  const PREVIEW_GAPS: nat := 2

  /** Whether the dashboard is shown rather than "No Assessment Data". */
  predicate DashboardShown(designation: Option<Designation>, complianceData: Option<ComplianceStatus>)
  {
    designation.Some? && complianceData.Some?
  }

  function FamilyOfControl(): Control -> string
  {
    (c: Control) => c.family
  }

  /** `controlsByFamily`: the applicable controls grouped by family. */
  function ControlsByFamily(controls: seq<Control>): (d: Dict<string, seq<Control>>)
    ensures d.Valid()
  {
    GroupBy(controls, FamilyOfControl())
  }

  /** `controlStatuses.find(status => status.controlId === control.id)`. */
  function StatusOf(statuses: seq<ControlStatus>, control: Control): Option<ControlStatus>
  {
    Find(statuses, (s: ControlStatus) => s.controlId == control.id)
  }

  /** The status a control is drawn with: the found one, else 'not_assessed'. */
  function ShownStatus(statuses: seq<ControlStatus>, control: Control): Status
  {
    var s := StatusOf(statuses, control);
    if s.Some? then s.value.status else NotAssessed
  }

  /** `controlStatus?.score || 0`. */
  function ShownScore(statuses: seq<ControlStatus>, control: Control): nat
  {
    var s := StatusOf(statuses, control);
    if s.Some? then s.value.score else 0
  }

  function ShownScoreOf(statuses: seq<ControlStatus>): Control -> nat
  {
    (c: Control) => ShownScore(statuses, c)
  }

  /** `Math.round(familyScore)`: the family's score sum, missing statuses
      counting 0, over its number of controls. */
  function FamilyScore(family: seq<Control>, statuses: seq<ControlStatus>): nat
    requires |family| > 0
  {
    RoundDiv(Sum(family, ShownScoreOf(statuses)), |family|)
  }

  /** The gap preview: the first two reasons, and how many more there
      are when there are more than two. */
  function GapPreview(gaps: seq<Gap>): (preview: (seq<string>, Option<nat>))
    ensures |preview.0| == if |gaps| < PREVIEW_GAPS then |gaps| else PREVIEW_GAPS
    ensures forall i :: 0 <= i < |preview.0| ==> preview.0[i] == gaps[i].reason
    ensures preview.1.Some? <==> |gaps| > PREVIEW_GAPS
    ensures preview.1.Some? ==> |preview.0| + preview.1.value == |gaps|
  {
    var shown := Take(gaps, PREVIEW_GAPS);
    (seq(|shown|, i requires 0 <= i < |shown| => shown[i].reason),
     if |gaps| > PREVIEW_GAPS then Some(|gaps| - PREVIEW_GAPS) else None)
  }

  /** The grouping partitions the controls: a family has a group iff one
      of the controls is in it; the group is exactly that family's
      controls, in order, and never empty; every control is in its
      family's group. */
  lemma ControlsByFamilyPartition(controls: seq<Control>, family: string)
    ensures var d := ControlsByFamily(controls);
      (family in d.vals <==> exists i :: 0 <= i < |controls| && controls[i].family == family) &&
      (family in d.vals ==>
         d.vals[family] == Filter(controls, KeyIs(FamilyOfControl(), family)) &&
         |d.vals[family]| > 0 &&
         forall c :: c in d.vals[family] ==> c.family == family)
    ensures forall i :: 0 <= i < |controls| ==>
              controls[i].family in ControlsByFamily(controls).vals &&
              controls[i] in ControlsByFamily(controls).vals[controls[i].family]
  {
    var key := FamilyOfControl();
    GroupByDomain(controls, key, family);
    if family in GroupBy(controls, key).vals {
      GroupByGroup(controls, key, family);
      var i :| 0 <= i < |controls| && key(controls[i]) == family;
      FilterMember(controls, KeyIs(key, family), controls[i]);
      forall c | c in GroupBy(controls, key).vals[family] ensures c.family == family {
        FilterMember(controls, KeyIs(key, family), c);
      }
    }
    forall i | 0 <= i < |controls|
      ensures controls[i].family in GroupBy(controls, key).vals &&
              controls[i] in GroupBy(controls, key).vals[controls[i].family]
    {
      GroupByDomain(controls, key, key(controls[i]));
      GroupByGroup(controls, key, key(controls[i]));
      FilterMember(controls, KeyIs(key, key(controls[i])), controls[i]);
    }
  }

  /** A control without a status of its id is drawn 'not assessed' with
      score 0; otherwise it is drawn with a status of its id. */
  lemma MissingStatusDefaults(statuses: seq<ControlStatus>, control: Control)
    ensures (forall i :: 0 <= i < |statuses| ==> statuses[i].controlId != control.id) ==>
              ShownStatus(statuses, control) == NotAssessed && ShownScore(statuses, control) == 0
    ensures (exists i :: 0 <= i < |statuses| && statuses[i].controlId == control.id) ==>
              exists i :: 0 <= i < |statuses| && statuses[i].controlId == control.id &&
                ShownStatus(statuses, control) == statuses[i].status &&
                ShownScore(statuses, control) == statuses[i].score
  {
    var p := (s: ControlStatus) => s.controlId == control.id;
    var k := FindIndex(statuses, p);
    if k < |statuses| {
      assert statuses[k].controlId == control.id;
    }
  }

  /** Computed from the same state, every applicable control finds a
      status of its own id. */
  lemma EveryControlHasStatus(designation: Designation, assessments: seq<Assessment>,
                              customerId: string, now: int, i: nat)
    requires ResponsesValid(assessments)
    requires CalculateComplianceStatus(Some(designation), assessments, customerId, now).Some?
    requires i < |designation.applicableControls|
    ensures var c := CalculateComplianceStatus(Some(designation), assessments, customerId, now).value;
      StatusOf(c.controlStatuses, designation.applicableControls[i]).Some? &&
      StatusOf(c.controlStatuses, designation.applicableControls[i]).value.controlId ==
        designation.applicableControls[i].id
  {
    var c := CalculateComplianceStatus(Some(designation), assessments, customerId, now).value;
    ComplianceShape(Some(designation), assessments, customerId, now);
    assert c.controlStatuses[i].controlId == designation.applicableControls[i].id;
  }

  /** A family's score is at most 100 when every status scores at most
      100. */
  lemma FamilyScoreAtMostHundred(family: seq<Control>, statuses: seq<ControlStatus>)
    requires |family| > 0
    requires forall i :: 0 <= i < |statuses| ==> statuses[i].score <= 100
    ensures FamilyScore(family, statuses) <= 100
  {
    forall i | 0 <= i < |family| ensures ShownScoreOf(statuses)(family[i]) <= 100 {
      MissingStatusDefaults(statuses, family[i]);
    }
    SumBound(family, ShownScoreOf(statuses), 100);
    var r := FamilyScore(family, statuses);
    assert 2 * |family| * r < 2 * |family| * 101;
    MulCancel(2 * |family|, r, 101);
  }
}
