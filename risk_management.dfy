/** The customer's risk page (`RiskManagement`): the search and severity
    filter over the risk list and the four counts above it. */
module RiskManagement {
  import opened Common
  import opened Text

  datatype Risk = Risk(
    id: nat,
    title: string,
    description: string,
    severity: string,
    category: string,
    likelihood: string,
    impact: string,
    status: string,
    owner: string,
    dueDate: string,
    mitigation: string)

  /** The risks the page lists. */
  const SAMPLE_RISKS: seq<Risk> := [
    Risk(1, "Inadequate Access Controls", "User access permissions are not regularly reviewed and updated",
         "High", "Access Management", "Medium", "High", "Open", "IT Security Team", "2024-02-15",
         "Implement quarterly access reviews and automated provisioning"),
    Risk(2, "Outdated Software Components", "Several critical systems running on outdated software versions",
         "Medium", "System Security", "High", "Medium", "In Progress", "System Administrator", "2024-02-28",
         "Schedule regular patching and vulnerability assessments"),
    Risk(3, "Insufficient Backup Testing", "Backup systems are not regularly tested for recovery capabilities",
         "Medium", "Business Continuity", "Low", "High", "Open", "Operations Team", "2024-03-10",
         "Implement monthly backup recovery testing procedures"),
    Risk(4, "Weak Password Policies", "Current password policies do not meet security best practices",
         "High", "Authentication", "High", "Medium", "Resolved", "IT Security Team", "2024-01-30",
         "Implemented strong password policy and MFA requirements")
  ]

  /** A risk is shown when its title or description contains the search
      term, ignoring case, and the severity filter is 'all' or equals its
      lower-cased severity. */
  predicate Shown(risk: Risk, searchTerm: string, filterSeverity: string)
  {
    var term := Lower(searchTerm);
    (Contains(Lower(risk.title), term) || Contains(Lower(risk.description), term)) &&
    (filterSeverity == "all" || Lower(risk.severity) == filterSeverity)
  }

  /** `filteredRisks`: the shown risks, in list order. */
  function FilteredRisks(risks: seq<Risk>, searchTerm: string, filterSeverity: string): (r: seq<Risk>)
    ensures IsSubseq(r, risks)
    ensures forall x :: x in r <==> x in risks && Shown(x, searchTerm, filterSeverity)
  {
    var p := (x: Risk) => Shown(x, searchTerm, filterSeverity);
    FilterIsSubseq(risks, p);
    forall x
      ensures x in Filter(risks, p) <==> x in risks && p(x)
    {
      FilterMember(risks, p, x);
    }
    Filter(risks, p)
  }

  /** An empty search with the 'all' filter lists every risk, in order. */
  lemma EmptySearchShowsAll(risks: seq<Risk>)
    ensures FilteredRisks(risks, "", "all") == risks
  {
    forall i | 0 <= i < |risks|
      ensures Shown(risks[i], "", "all")
    {
      ContainsTrivial(Lower(risks[i].title));
    }
    FilterAll(risks, (x: Risk) => Shown(x, "", "all"));
  }

  /** The counts above the list. */
  datatype RiskStats = RiskStats(total: nat, high: nat, inProgress: nat, resolved: nat)

  /** Total risks, 'High' severity, 'In Progress' and 'Resolved' status,
      each compared exactly. */
  function Stats(risks: seq<Risk>): (s: RiskStats)
    ensures s.total == |risks|
    ensures s.high <= s.total
    ensures s.inProgress + s.resolved <= s.total
  {
    var inProgress := (r: Risk) => r.status == "In Progress";
    var resolved := (r: Risk) => r.status == "Resolved";
    FilterDisjointCounts(risks, inProgress, resolved);
    RiskStats(|risks|, |Filter(risks, (r: Risk) => r.severity == "High")|,
              |Filter(risks, inProgress)|, |Filter(risks, resolved)|)
  }

  /** Two of the listed risks have severity 'High'. */
  lemma SampleHighCount()
    ensures |Filter(SAMPLE_RISKS, (r: Risk) => r.severity == "High")| == 2
  {
    var high := (r: Risk) => r.severity == "High";
    assert Filter(SAMPLE_RISKS[3..], high) == [SAMPLE_RISKS[3]];
    assert Filter(SAMPLE_RISKS[2..], high) == [SAMPLE_RISKS[3]];
    assert Filter(SAMPLE_RISKS[1..], high) == [SAMPLE_RISKS[3]];
  }

  /** One listed risk is 'In Progress'. */
  lemma SampleInProgressCount()
    ensures |Filter(SAMPLE_RISKS, (r: Risk) => r.status == "In Progress")| == 1
  {
    var inProgress := (r: Risk) => r.status == "In Progress";
    assert Filter(SAMPLE_RISKS[3..], inProgress) == [];
    assert Filter(SAMPLE_RISKS[2..], inProgress) == [];
    assert Filter(SAMPLE_RISKS[1..], inProgress) == [SAMPLE_RISKS[1]];
  }

  /** One listed risk is 'Resolved'. */
  lemma SampleResolvedCount()
    ensures |Filter(SAMPLE_RISKS, (r: Risk) => r.status == "Resolved")| == 1
  {
    var resolved := (r: Risk) => r.status == "Resolved";
    assert Filter(SAMPLE_RISKS[3..], resolved) == [SAMPLE_RISKS[3]];
    assert Filter(SAMPLE_RISKS[2..], resolved) == [SAMPLE_RISKS[3]];
    assert Filter(SAMPLE_RISKS[1..], resolved) == [SAMPLE_RISKS[3]];
  }

  /** The counts of the listed risks. */
  lemma SampleStats()
    ensures Stats(SAMPLE_RISKS) == RiskStats(4, 2, 1, 1)
  {
    SampleHighCount();
    SampleInProgressCount();
    SampleResolvedCount();
  }

  /** The hint under 'No risks found': it depends only on whether a
      search term was typed. */
  function EmptyStateHint(searchTerm: string): (h: string)
    ensures searchTerm != "" ==> h == "Try adjusting your search terms"
    ensures searchTerm == "" ==> h == "Start by adding your first risk"
  {
    if searchTerm != "" then "Try adjusting your search terms" else "Start by adding your first risk"
  }
}
