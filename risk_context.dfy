/** The risk register (`RiskContext`): risks and treatments by id, risks
    identified from compliance gaps, and the prioritised register. Ids
    (`uuidv4()`) and the clock are parameters; timestamps are
    milliseconds. */
module RiskContext {
  import opened Common
  import opened Dicts
  import opened Sorting
  import opened Nis2Scoring
  import opened Nis2Compliance

  const IDENTIFIED := "identified"
  const TREATMENT_PLANNED := "treatment_planned"
  const PLANNED := "planned"

  /** The default likelihood and impact of an identified risk: 'Possible'
      and 'Moderate' on the 1–5 scales. */
  const DEFAULT_LIKELIHOOD: nat := 3
  const DEFAULT_IMPACT: nat := 3

  datatype RiskScore = RiskScore(likelihood: nat, impact: nat, score: nat)

  datatype Risk = Risk(
    id: string,
    customerId: string,
    title: string,
    description: string,
    category: string,
    source: string,
    controlId: Option<string>,
    inherentRisk: Option<RiskScore>,
    residualRisk: Option<RiskScore>,
    status: string,
    createdAt: int,
    updatedAt: int)

  /** The fields a caller passes to `addRisk`; a `status` among them is
      overridden. */
  datatype RiskData = RiskData(
    title: string,
    description: string,
    category: string,
    source: string,
    controlId: Option<string>,
    inherentRisk: Option<RiskScore>,
    residualRisk: Option<RiskScore>,
    status: Option<string>)

  /** The fields an `updateRisk` call sets; `None` leaves a field as is. */
  datatype RiskUpdate = RiskUpdate(
    title: Option<string>,
    description: Option<string>,
    status: Option<string>,
    inherentRisk: Option<Option<RiskScore>>,
    residualRisk: Option<Option<RiskScore>>)

  datatype Treatment = Treatment(
    id: string,
    riskId: string,
    strategy: string,
    description: string,
    residualRisk: Option<RiskScore>,
    effort: Option<string>,
    assignedRole: Option<string>,
    dueDate: Option<int>,
    status: string,
    createdAt: int,
    updatedAt: int)

  /** The fields an `addTreatment` call spreads into the new treatment;
      those it leaves out are unset. */
  datatype TreatmentData = TreatmentData(
    strategy: string,
    description: string,
    residualRisk: Option<RiskScore>,
    effort: Option<string>,
    assignedRole: Option<string>,
    dueDate: Option<int>)

  /** The fields an `updateTreatment` call sets. */
  datatype TreatmentUpdate = TreatmentUpdate(
    strategy: Option<string>,
    description: Option<string>,
    status: Option<string>)

  /** A register entry: the risk with its treatments. */
  datatype RegisterEntry = RegisterEntry(risk: Risk, treatments: seq<Treatment>)

  /** `calculateRiskScore`. */
  function CalculateRiskScore(likelihood: nat, impact: nat): (score: nat)
    ensures 1 <= likelihood <= 5 && 1 <= impact <= 5 ==> 1 <= score <= 25
    ensures likelihood == 0 || impact == 0 ==> score == 0
  {
    likelihood * impact
  }

  /** The risk identified from one gap of a control that is not compliant. */
  function AutoRisk(cs: ControlStatus, gap: Gap, id: string, customerId: string, now: int): Risk
  {
    Risk(id, customerId, "Risk from gap: " + gap.requirement, gap.reason, "cybersecurity", "automated",
      Some(cs.controlId),
      Some(RiskScore(DEFAULT_LIKELIHOOD, DEFAULT_IMPACT, 9)),
      None, IDENTIFIED, now, now)
  }

  /** The risks of one control status; `idOf(k)` is the k-th generated id
      and `base` the number of risks identified before. */
  function ControlRisks(cs: ControlStatus, customerId: string, idOf: nat -> string, base: nat, now: int): (r: seq<Risk>)
    ensures |r| == if cs.status == Compliant then 0 else |cs.gaps|
  {
    if cs.status == Compliant then []
    else seq(|cs.gaps|, j requires 0 <= j < |cs.gaps| => AutoRisk(cs, cs.gaps[j], idOf(base + j), customerId, now))
  }

  /** The risks of a list of control statuses, in order. */
  function IdentifiedRisks(statuses: seq<ControlStatus>, customerId: string, idOf: nat -> string, now: int): seq<Risk>
  {
    if statuses == [] then []
    else
      var prev := IdentifiedRisks(statuses[..|statuses| - 1], customerId, idOf, now);
      prev + ControlRisks(statuses[|statuses| - 1], customerId, idOf, |prev|, now)
  }

  /** The number of gaps over the controls that are not compliant. */
  function OpenGapCount(statuses: seq<ControlStatus>): nat
  {
    if statuses == [] then 0
    else
      var last := statuses[|statuses| - 1];
      OpenGapCount(statuses[..|statuses| - 1]) + if last.status == Compliant then 0 else |last.gaps|
  }

  /** `identifyRisksFromCompliance`, given the customer's compliance
      result: nothing without one; otherwise a loop over the control
      statuses and, for each that is not compliant, over its gaps. */
  method IdentifyRisksFromCompliance(customerId: string, compliance: Option<ComplianceStatus>,
                                     idOf: nat -> string, now: int)
    returns (risks: seq<Risk>)
    ensures compliance.None? ==> risks == []
    ensures compliance.Some? ==> risks == IdentifiedRisks(compliance.value.controlStatuses, customerId, idOf, now)
  {
    risks := [];
    if compliance.None? {
      return;
    }
    var statuses := compliance.value.controlStatuses;
    var i := 0;
    while i < |statuses|
      invariant 0 <= i <= |statuses|
      invariant risks == IdentifiedRisks(statuses[..i], customerId, idOf, now)
    {
      var status := statuses[i];
      if status.status != Compliant {
        risks := PushGapRisks(status, customerId, idOf, now, risks);
      }
      IdentifiedRisksStep(statuses, customerId, idOf, now, i);
      i := i + 1;
    }
    assert statuses[..i] == statuses;
  }

  /** The inner loop of `identifyRisksFromCompliance`: one risk per gap of
      a control that is not compliant, numbered on from the risks so far. */
  method PushGapRisks(cs: ControlStatus, customerId: string, idOf: nat -> string, now: int, before: seq<Risk>)
    returns (risks: seq<Risk>)
    requires cs.status != Compliant
    ensures risks == before + ControlRisks(cs, customerId, idOf, |before|, now)
  {
    risks := before;
    var j := 0;
    while j < |cs.gaps|
      invariant 0 <= j <= |cs.gaps|
      invariant |risks| == |before| + j
      invariant risks == before + ControlRisks(cs, customerId, idOf, |before|, now)[..j]
    {
      ControlRisksStep(before, cs, customerId, idOf, now, j);
      risks := risks + [AutoRisk(cs, cs.gaps[j], idOf(|risks|), customerId, now)];
      j := j + 1;
    }
    assert ControlRisks(cs, customerId, idOf, |before|, now)[..j] == ControlRisks(cs, customerId, idOf, |before|, now);
  }

  /** Pushing the risk of gap `j` extends the control's risks by one. */
  lemma ControlRisksStep(before: seq<Risk>, cs: ControlStatus, customerId: string, idOf: nat -> string, now: int, j: nat)
    requires cs.status != Compliant && j < |cs.gaps|
    ensures before + ControlRisks(cs, customerId, idOf, |before|, now)[..j + 1] ==
            (before + ControlRisks(cs, customerId, idOf, |before|, now)[..j]) +
            [AutoRisk(cs, cs.gaps[j], idOf(|before| + j), customerId, now)]
  {
    var r := ControlRisks(cs, customerId, idOf, |before|, now);
    assert r[..j + 1] == r[..j] + [r[j]];
  }

  /** The risks of one more control status follow those identified so far. */
  lemma IdentifiedRisksStep(statuses: seq<ControlStatus>, customerId: string, idOf: nat -> string, now: int, i: nat)
    requires i < |statuses|
    ensures var prev := IdentifiedRisks(statuses[..i], customerId, idOf, now);
      IdentifiedRisks(statuses[..i + 1], customerId, idOf, now) ==
      prev + ControlRisks(statuses[i], customerId, idOf, |prev|, now)
  {
    assert statuses[..i + 1][..i] == statuses[..i];
  }

  /** One risk per gap of every control that is not compliant. */
  lemma {:induction false} IdentifiedRisksCount(statuses: seq<ControlStatus>, customerId: string,
                                               idOf: nat -> string, now: int)
    ensures |IdentifiedRisks(statuses, customerId, idOf, now)| == OpenGapCount(statuses)
  {
    if statuses != [] {
      IdentifiedRisksCount(statuses[..|statuses| - 1], customerId, idOf, now);
    }
  }

  /** Every identified risk carries the k-th generated id, the default
      scores (3 × 3 = 9), status 'identified', category 'cybersecurity',
      and the control id, requirement and reason of a gap of a control
      that is not compliant. */
  lemma {:induction false} IdentifiedRisksFields(statuses: seq<ControlStatus>, customerId: string,
                                                idOf: nat -> string, now: int, k: nat)
    requires k < |IdentifiedRisks(statuses, customerId, idOf, now)|
    ensures var r := IdentifiedRisks(statuses, customerId, idOf, now)[k];
      r.id == idOf(k) && r.customerId == customerId &&
      r.inherentRisk == Some(RiskScore(DEFAULT_LIKELIHOOD, DEFAULT_IMPACT,
                                       CalculateRiskScore(DEFAULT_LIKELIHOOD, DEFAULT_IMPACT))) &&
      r.residualRisk.None? && r.status == IDENTIFIED &&
      r.category == "cybersecurity" && r.source == "automated" &&
      exists i, g :: 0 <= i < |statuses| && statuses[i].status != Compliant && 0 <= g < |statuses[i].gaps| &&
        r.controlId == Some(statuses[i].controlId) &&
        r.title == "Risk from gap: " + statuses[i].gaps[g].requirement &&
        r.description == statuses[i].gaps[g].reason
  {
    var init := statuses[..|statuses| - 1];
    var last := statuses[|statuses| - 1];
    var prev := IdentifiedRisks(init, customerId, idOf, now);
    if k < |prev| {
      IdentifiedRisksFields(init, customerId, idOf, now, k);
      var i, g :| 0 <= i < |init| && init[i].status != Compliant && 0 <= g < |init[i].gaps| &&
        prev[k].controlId == Some(init[i].controlId) &&
        prev[k].title == "Risk from gap: " + init[i].gaps[g].requirement &&
        prev[k].description == init[i].gaps[g].reason;
      assert init[i] == statuses[i];
    } else {
      var g := k - |prev|;
      var i := |statuses| - 1;
      assert IdentifiedRisks(statuses, customerId, idOf, now)[k] == AutoRisk(last, last.gaps[g], idOf(k), customerId, now);
      assert statuses[i] == last && last.status != Compliant && g < |last.gaps|;
    }
  }

  /** A result with every control compliant identifies no risk. */
  lemma {:induction false} AllCompliantNoRisks(statuses: seq<ControlStatus>, customerId: string,
                                              idOf: nat -> string, now: int)
    requires forall i :: 0 <= i < |statuses| ==> statuses[i].status == Compliant
    ensures IdentifiedRisks(statuses, customerId, idOf, now) == []
  {
    if statuses != [] {
      AllCompliantNoRisks(statuses[..|statuses| - 1], customerId, idOf, now);
    }
  }

  /** The risk `addRisk` stores: the caller's fields, status forced to
      'identified'. */
  function NewRisk(customerId: string, data: RiskData, id: string, now: int): (r: Risk)
    ensures r.id == id && r.customerId == customerId && r.status == IDENTIFIED
    ensures r.title == data.title && r.inherentRisk == data.inherentRisk && r.residualRisk == data.residualRisk
    ensures r.createdAt == r.updatedAt == now
  {
    Risk(id, customerId, data.title, data.description, data.category, data.source, data.controlId,
      data.inherentRisk, data.residualRisk, IDENTIFIED, now, now)
  }

  /** `{ ...risk, ...updates, updatedAt }`. */
  function ApplyRiskUpdate(r: Risk, u: RiskUpdate, now: int): (s: Risk)
    ensures s.id == r.id && s.customerId == r.customerId && s.createdAt == r.createdAt && s.updatedAt == now
    ensures s.status == (if u.status.Some? then u.status.value else r.status)
    ensures s.residualRisk == (if u.residualRisk.Some? then u.residualRisk.value else r.residualRisk)
    ensures s.inherentRisk == (if u.inherentRisk.Some? then u.inherentRisk.value else r.inherentRisk)
    ensures u == RiskUpdate(None, None, None, None, None) ==> s == r.(updatedAt := now)
  {
    r.(title := if u.title.Some? then u.title.value else r.title,
       description := if u.description.Some? then u.description.value else r.description,
       status := if u.status.Some? then u.status.value else r.status,
       inherentRisk := if u.inherentRisk.Some? then u.inherentRisk.value else r.inherentRisk,
       residualRisk := if u.residualRisk.Some? then u.residualRisk.value else r.residualRisk,
       updatedAt := now)
  }

  /** The update `addTreatment` passes to `updateRisk`: status
      'treatment_planned' and the treatment's residual risk. */
  function PlannedUpdate(residualRisk: Option<RiskScore>): RiskUpdate
  {
    RiskUpdate(None, None, Some(TREATMENT_PLANNED), None, Some(residualRisk))
  }

  function ApplyTreatmentUpdate(t: Treatment, u: TreatmentUpdate, now: int): (s: Treatment)
    ensures s.id == t.id && s.riskId == t.riskId && s.createdAt == t.createdAt && s.updatedAt == now
    ensures s.status == (if u.status.Some? then u.status.value else t.status)
  {
    t.(strategy := if u.strategy.Some? then u.strategy.value else t.strategy,
       description := if u.description.Some? then u.description.value else t.description,
       status := if u.status.Some? then u.status.value else t.status,
       updatedAt := now)
  }

  /** `a.inherentRisk?.score || 0`. */
  function InherentScore(r: Risk): nat
  {
    if r.inherentRisk.Some? then r.inherentRisk.value.score else 0
  }

  /** The `prioritizeRisks` comparator, as "a sorts no later than b":
      higher inherent score first, then identified risks, then newer. */
  function RiskPriority(): (RegisterEntry, RegisterEntry) -> bool
  {
    (a: RegisterEntry, b: RegisterEntry) =>
      var sa, sb := InherentScore(a.risk), InherentScore(b.risk);
      var ia, ib := a.risk.status == IDENTIFIED, b.risk.status == IDENTIFIED;
      if sb != sa then sb - sa <= 0
      else if ia && !ib then true
      else if !ia && ib then false
      else b.risk.createdAt - a.risk.createdAt <= 0
  }

  lemma RiskPriorityIsTotalPreorder()
    ensures TotalPreorder(RiskPriority())
  {
  }

  /** The treatments of one risk, in store order. */
  function TreatmentsOf(all: seq<Treatment>, riskId: string): (r: seq<Treatment>)
    ensures IsSubseq(r, all)
    ensures forall x :: x in r <==> x in all && x.riskId == riskId
  {
    var r := Filter(all, (x: Treatment) => x.riskId == riskId);
    FilterIsSubseq(all, (x: Treatment) => x.riskId == riskId);
    forall x ensures x in r <==> x in all && x.riskId == riskId {
      FilterMember(all, (x: Treatment) => x.riskId == riskId, x);
    }
    r
  }

  class RiskStore {
    var risks: Dict<string, Risk>
    var treatments: Dict<string, Treatment>

    ghost predicate Valid()
      reads this
    {
      risks.Valid() && treatments.Valid()
    }

    constructor()
      ensures Valid() && risks.keys == [] && treatments.keys == []
    {
      risks := Empty();
      treatments := Empty();
    }

    /** `addRisk`. */
    method AddRisk(customerId: string, data: RiskData, id: string, now: int) returns (r: Risk)
      requires Valid()
      modifies this
      ensures Valid()
      ensures r == NewRisk(customerId, data, id, now)
      ensures risks == old(risks).Put(id, r) && treatments == old(treatments)
    {
      r := NewRisk(customerId, data, id, now);
      PutValid(risks, id, r);
      risks := risks.Put(id, r);
    }

    /** `updateRisk`: merges the update into that risk only. */
    method UpdateRisk(riskId: string, u: RiskUpdate, now: int)
      requires Valid()
      modifies this
      ensures Valid() && treatments == old(treatments)
      ensures riskId in old(risks).vals ==>
                risks == old(risks).Put(riskId, ApplyRiskUpdate(old(risks).vals[riskId], u, now))
      ensures riskId !in old(risks).vals ==> risks == old(risks)
      ensures forall k :: k != riskId ==> risks.Get(k) == old(risks).Get(k)
    {
      var current := risks.Get(riskId);
      if current.Some? {
        var updated := ApplyRiskUpdate(current.value, u, now);
        PutValid(risks, riskId, updated);
        risks := risks.Put(riskId, updated);
      }
    }

    /** `deleteRisk`: removes that risk only; its treatments stay. */
    method DeleteRisk(riskId: string)
      requires Valid()
      modifies this
      ensures Valid() && treatments == old(treatments)
      ensures risks == old(risks).Remove(riskId)
      ensures riskId !in risks.vals
      ensures forall k :: k != riskId ==> risks.Get(k) == old(risks).Get(k)
    {
      RemoveValid(risks, riskId);
      risks := risks.Remove(riskId);
    }

    /** `addTreatment`: stores a planned treatment and marks the risk
        'treatment_planned' with the treatment's residual risk. */
    method AddTreatment(riskId: string, data: TreatmentData, id: string, now: int) returns (t: Treatment)
      requires Valid()
      modifies this
      ensures Valid()
      ensures t == Treatment(id, riskId, data.strategy, data.description, data.residualRisk,
                            data.effort, data.assignedRole, data.dueDate, PLANNED, now, now)
      ensures treatments == old(treatments).Put(id, t)
      ensures riskId in old(risks).vals ==>
                risks == old(risks).Put(riskId, ApplyRiskUpdate(old(risks).vals[riskId], PlannedUpdate(data.residualRisk), now))
      ensures riskId in old(risks).vals ==>
                risks.Get(riskId).Some? &&
                risks.Get(riskId).value.status == TREATMENT_PLANNED &&
                risks.Get(riskId).value.residualRisk == data.residualRisk
      ensures riskId !in old(risks).vals ==> risks == old(risks)
      ensures forall k :: k != riskId ==> risks.Get(k) == old(risks).Get(k)
    {
      t := Treatment(id, riskId, data.strategy, data.description, data.residualRisk,
                            data.effort, data.assignedRole, data.dueDate, PLANNED, now, now);
      PutValid(treatments, id, t);
      treatments := treatments.Put(id, t);
      UpdateRisk(riskId, PlannedUpdate(data.residualRisk), now);
    }

    /** `updateTreatment`. */
    method UpdateTreatment(treatmentId: string, u: TreatmentUpdate, now: int)
      requires Valid()
      modifies this
      ensures Valid() && risks == old(risks)
      ensures treatmentId in old(treatments).vals ==>
                treatments == old(treatments).Put(treatmentId, ApplyTreatmentUpdate(old(treatments).vals[treatmentId], u, now))
      ensures treatmentId !in old(treatments).vals ==> treatments == old(treatments)
    {
      var current := treatments.Get(treatmentId);
      if current.Some? {
        var updated := ApplyTreatmentUpdate(current.value, u, now);
        PutValid(treatments, treatmentId, updated);
        treatments := treatments.Put(treatmentId, updated);
      }
    }

    /** `getRisksByCustomer`. */
    function RisksByCustomer(customerId: string): (r: seq<Risk>)
      reads this
      requires Valid()
      ensures IsSubseq(r, risks.Values())
      ensures forall x :: x in r <==> x in risks.Values() && x.customerId == customerId
    {
      var r := Filter(risks.Values(), (x: Risk) => x.customerId == customerId);
      FilterIsSubseq(risks.Values(), (x: Risk) => x.customerId == customerId);
      forall x ensures x in r <==> x in risks.Values() && x.customerId == customerId {
        FilterMember(risks.Values(), (x: Risk) => x.customerId == customerId, x);
      }
      r
    }

    /** `getTreatmentsByRisk`. */
    function TreatmentsByRisk(riskId: string): (r: seq<Treatment>)
      reads this
      requires Valid()
      ensures IsSubseq(r, treatments.Values())
      ensures forall x :: x in r <==> x in treatments.Values() && x.riskId == riskId
    {
      TreatmentsOf(treatments.Values(), riskId)
    }

    /** `generateRiskRegister`: each of the customer's risks with its
        treatments. */
    function RiskRegister(customerId: string): (r: seq<RegisterEntry>)
      reads this
      requires Valid()
      ensures |r| == |RisksByCustomer(customerId)|
      ensures forall i :: 0 <= i < |r| ==>
                r[i].risk == RisksByCustomer(customerId)[i] &&
                r[i].treatments == TreatmentsByRisk(r[i].risk.id)
    {
      var mine, all := RisksByCustomer(customerId), treatments.Values();
      seq(|mine|, i requires 0 <= i < |mine| => RegisterEntry(mine[i], TreatmentsOf(all, mine[i].id)))
    }

    /** `prioritizeRisks`: the register sorted by the comparator. */
    function PrioritizeRisks(customerId: string): seq<RegisterEntry>
      reads this
      requires Valid()
    {
      Sort(RiskRegister(customerId), RiskPriority())
    }

    /** The prioritised register is a permutation of the register, ordered
        by score (highest first), then identified risks first, then
        newest first. */
    lemma PrioritizedOrder(customerId: string)
      requires Valid()
      ensures multiset(PrioritizeRisks(customerId)) == multiset(RiskRegister(customerId))
      ensures var p := PrioritizeRisks(customerId);
        forall i, j :: 0 <= i < j < |p| ==>
          InherentScore(p[i].risk) >= InherentScore(p[j].risk) &&
          (InherentScore(p[i].risk) == InherentScore(p[j].risk) ==>
             (p[i].risk.status == IDENTIFIED || p[j].risk.status != IDENTIFIED)) &&
          (InherentScore(p[i].risk) == InherentScore(p[j].risk) &&
           (p[i].risk.status == IDENTIFIED) == (p[j].risk.status == IDENTIFIED) ==>
             p[i].risk.createdAt >= p[j].risk.createdAt)
    {
      RiskPriorityIsTotalPreorder();
      SortSorted(RiskRegister(customerId), RiskPriority());
      var p := PrioritizeRisks(customerId);
      forall i, j | 0 <= i < j < |p|
        ensures InherentScore(p[i].risk) >= InherentScore(p[j].risk)
      {
        assert RiskPriority()(p[i], p[j]);
      }
    }
  }
}
