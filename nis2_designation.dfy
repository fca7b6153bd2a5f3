/** The NIS2 control catalog, the industry sector table, the designation
    form a customer fills in, and the two decisions made from it: the
    entity tier (`determineDesignation`) and the controls that apply to
    the customer (`getApplicableControls`). */
module Nis2Designation {
  import opened Common

  /** Which entities and sectors a control applies to. */
  datatype Applicability = Applicability(
    essential: bool,
    important: bool,
    sectors: seq<string>,
    otRequired: bool)

  datatype Control = Control(
    id: string,
    family: string,
    title: string,
    description: string,
    requirements: seq<string>,
    applicability: Applicability)

  const ALL_SECTORS: seq<string> :=
    ["energy", "transport", "banking", "health", "digital", "manufacturing"]

  const CYBERSEC_001_REQUIREMENTS := [
    "Conduct regular risk assessments of cybersecurity threats",
    "Document identified risks and their potential impact",
    "Implement risk mitigation measures",
    "Review and update risk assessments annually"]
  const CYBERSEC_002_REQUIREMENTS := [
    "Develop formal incident response procedures",
    "Define roles and responsibilities for incident response",
    "Establish communication protocols",
    "Test incident response plan regularly"]
  const OT_001_REQUIREMENTS := [
    "Separate OT networks from IT networks",
    "Implement network access controls",
    "Monitor OT network traffic",
    "Regular security assessments of OT infrastructure"]
  const DATA_001_REQUIREMENTS := [
    "Classify data based on sensitivity",
    "Implement appropriate protection measures",
    "Control access to classified data",
    "Secure data transmission and storage"]

  const RISK_MANAGEMENT_FAMILY := "Cybersecurity Risk Management"
  const CYBERSEC_001_DESCRIPTION := "Implement comprehensive cybersecurity risk assessment procedures"
  const CYBERSEC_002_DESCRIPTION := "Establish and maintain an incident response plan"
  const OT_001_DESCRIPTION := "Implement network segmentation for OT environments"
  const DATA_001_DESCRIPTION := "Implement data classification and secure handling procedures"

  const CYBERSEC_001 := Control("cybersec-001", RISK_MANAGEMENT_FAMILY,
    "Cybersecurity Risk Assessment", CYBERSEC_001_DESCRIPTION, CYBERSEC_001_REQUIREMENTS,
    Applicability(true, true, ALL_SECTORS, false))

  const CYBERSEC_002 := Control("cybersec-002", RISK_MANAGEMENT_FAMILY,
    "Incident Response Plan", CYBERSEC_002_DESCRIPTION, CYBERSEC_002_REQUIREMENTS,
    Applicability(true, true, ALL_SECTORS, false))

  const OT_001 := Control("ot-001", "Operational Technology Security",
    "OT Network Segmentation", OT_001_DESCRIPTION, OT_001_REQUIREMENTS,
    Applicability(true, true, ["energy", "transport", "manufacturing"], true))

  const DATA_001 := Control("data-001", "Data Protection",
    "Data Classification and Handling", DATA_001_DESCRIPTION, DATA_001_REQUIREMENTS,
    Applicability(true, true, ["banking", "health", "digital"], false))

  /** The Belgian catalog, in the order the controls are listed. */
  const CYFUN_CATALOG := [CYBERSEC_001, CYBERSEC_002, OT_001, DATA_001]

  /** The catalog of each supported country; only Belgium (the CyFun
      framework) has one. */
  function Catalog(country: string): (r: Option<seq<Control>>)
    ensures r.Some? <==> country == "belgium"
  {
    if country == "belgium" then Some(CYFUN_CATALOG)
    else None
  }

  datatype SectorInfo = SectorInfo(name: string, description: string, typicallyEssential: bool, commonOt: bool)

  /** `INDUSTRY_SECTORS[industry]`. */
  function Sector(industry: string): (r: Option<SectorInfo>)
    ensures r.Some? <==> industry in ALL_SECTORS
  {
    match industry
    case "energy" => Some(SectorInfo("Energy", "Electricity, oil, gas, and renewable energy sectors", true, true))
    case "transport" => Some(SectorInfo("Transport", "Air, rail, water, and road transport", true, true))
    case "banking" => Some(SectorInfo("Banking", "Credit institutions and financial services", true, false))
    case "health" => Some(SectorInfo("Health", "Healthcare providers and medical services", true, false))
    case "digital" => Some(SectorInfo("Digital Infrastructure", "Digital service providers and infrastructure", true, false))
    case "manufacturing" => Some(SectorInfo("Manufacturing", "Production and manufacturing industries", false, true))
    case _ => None
  }

  /** `INDUSTRY_SECTORS[industry]?.typically_essential`, absent sectors
      being falsy. */
  predicate TypicallyEssential(industry: string)
  {
    Sector(industry).Some? && Sector(industry).value.typicallyEssential
  }

  /** The OT part of the designation form. */
  datatype OtDetails = OtDetails(
    types: seq<string>,
    criticalSystems: string,
    networkSegmentation: string,
    otSecurityMeasures: string)

  /** The designation form. `hasOT` starts as `null` (`None`) until the
      customer answers the OT question. */
  datatype FormData = FormData(
    country: string,
    industry: string,
    companySize: string,
    employeeCount: string,
    annualTurnover: string,
    hasOT: Option<bool>,
    otDetails: OtDetails,
    servicesCriticality: string,
    interconnectedness: string)

  /** The truthiness of `hasOT`: `null` and `false` are falsy. */
  predicate HasOt(form: FormData)
  {
    form.hasOT == Some(true)
  }

  datatype Tier = Essential | Important | Other

  /** `determineDesignation`: a typically essential sector makes a large
      company or an OT operator essential and any other company important;
      every other industry, known or not, is 'other'. */
  function DetermineDesignation(form: FormData): (t: Tier)
    ensures t == Essential <==>
              form.industry in ["energy", "transport", "banking", "health", "digital"] &&
              (form.companySize == "large" || form.hasOT == Some(true))
    ensures t == Important <==>
              form.industry in ["energy", "transport", "banking", "health", "digital"] &&
              form.companySize != "large" && form.hasOT != Some(true)
    ensures t == Other <==>
              form.industry !in ["energy", "transport", "banking", "health", "digital"]
  {
    if TypicallyEssential(form.industry) then
      if form.companySize == "large" || HasOt(form) then Essential else Important
    else Other
  }

  /** The filter of `getApplicableControls` for one control. */
  predicate Applies(c: Control, tier: Tier, form: FormData)
  {
    var a := c.applicability;
    !(tier == Essential && !a.essential) &&
    !(tier == Important && !a.important && !a.essential) &&
    form.industry in a.sectors &&
    !(a.otRequired && !HasOt(form))
  }

  /** The filter as a test on controls. */
  function AppliesTo(form: FormData): Control -> bool
  {
    c => Applies(c, DetermineDesignation(form), form)
  }

  /** `getApplicableControls`: the catalog controls that apply, in catalog
      order; an unknown country has none. */
  function ApplicableControls(form: FormData): (r: seq<Control>)
    ensures Catalog(form.country).None? ==> r == []
    ensures Catalog(form.country).Some? ==> IsSubseq(r, Catalog(form.country).value)
  {
    var controls := if Catalog(form.country).Some? then Catalog(form.country).value else [];
    var r := Filter(controls, AppliesTo(form));
    FilterIsSubseq(controls, AppliesTo(form));
    r
  }

  /** A control is applicable iff it is in the country's catalog, lists the
      industry, is not OT-only for a customer without OT, and passes the
      tier check: essential customers need essential-flagged controls,
      important customers important- or essential-flagged ones, and 'other'
      customers pass without a check. */
  lemma ApplicableControlsMembers(form: FormData, c: Control)
    ensures c in ApplicableControls(form) <==>
              Catalog(form.country).Some? && c in Catalog(form.country).value &&
              form.industry in c.applicability.sectors &&
              (c.applicability.otRequired ==> form.hasOT == Some(true)) &&
              (DetermineDesignation(form) == Essential ==> c.applicability.essential) &&
              (DetermineDesignation(form) == Important ==>
                 c.applicability.important || c.applicability.essential)
  {
    var controls := if Catalog(form.country).Some? then Catalog(form.country).value else [];
    FilterMember(controls, AppliesTo(form), c);
  }

  /** In the shipped catalog every control is flagged for both tiers, so
      the tier never excludes a control: only sector and OT matter. */
  lemma {:induction false} TierNeverExcludes(form: FormData, other: FormData)
    requires form.country == other.country && form.industry == other.industry
    requires HasOt(form) == HasOt(other)
    ensures ApplicableControls(form) == ApplicableControls(other)
  {
    var controls := if Catalog(form.country).Some? then Catalog(form.country).value else [];
    FilterCongruent(controls,
      AppliesTo(form),
      AppliesTo(other));
  }

  /** An energy company with OT in Belgium gets the two risk-management
      controls and the OT control, but not the data-protection control. */
  lemma BelgianEnergyWithOt(form: FormData)
    requires form.country == "belgium" && form.industry == "energy" && HasOt(form)
    ensures ApplicableControls(form) == [CYBERSEC_001, CYBERSEC_002, OT_001]
  {
    var p := AppliesTo(form);
    assert ApplicableControls(form) == Filter(CYFUN_CATALOG, p);
    EnergyWithOtTests(form);
    FilterDropsFourth(CYBERSEC_001, CYBERSEC_002, OT_001, DATA_001, p);
  }

  lemma EnergyWithOtTests(form: FormData)
    requires form.industry == "energy" && HasOt(form)
    ensures AppliesTo(form)(CYBERSEC_001) && AppliesTo(form)(CYBERSEC_002) && AppliesTo(form)(OT_001)
    ensures !AppliesTo(form)(DATA_001)
  {
    assert ALL_SECTORS[0] == "energy";
    assert OT_001.applicability.sectors[0] == "energy";
  }

  /** A bank never gets the OT control, whatever it answers about OT. */
  lemma BankingHasNoOtControl(form: FormData)
    requires form.industry == "banking"
    ensures OT_001 !in ApplicableControls(form)
  {
    ApplicableControlsMembers(form, OT_001);
    assert "banking" !in OT_001.applicability.sectors;
  }
}
