/** The super-admin's audit log page (`AuditLogs`): the search and type
    filter over the log entries, the severity label and the summary
    counts. */
module AuditLogs {
  import opened Common
  import opened Text

  datatype LogEntry = LogEntry(
    id: nat,
    timestamp: string,
    user: string,
    action: string,
    target: string,
    logType: string,
    ipAddress: string,
    userAgent: string,
    severity: string)

  /** The entries the page lists. */
  const SAMPLE_LOGS: seq<LogEntry> := [
    LogEntry(1, "2024-01-20T10:30:00Z", "admin@trusecure.com", "User Created", "john.doe@partner.com",
             "user_management", "192.168.1.100", "Mozilla/5.0...", "info"),
    LogEntry(2, "2024-01-20T09:15:00Z", "john.doe@partner.com", "Login Successful", "Authentication System",
             "authentication", "203.0.113.42", "Mozilla/5.0...", "info"),
    LogEntry(3, "2024-01-20T08:45:00Z", "system", "Database Backup", "Main Database",
             "system", "localhost", "System Process", "info"),
    LogEntry(4, "2024-01-19T16:20:00Z", "admin@trusecure.com", "Security Settings Modified", "Password Policy",
             "security", "192.168.1.100", "Mozilla/5.0...", "warning"),
    LogEntry(5, "2024-01-19T14:10:00Z", "unknown", "Failed Login Attempt", "admin@trusecure.com",
             "authentication", "203.0.113.99", "Mozilla/5.0...", "error")
  ]

  /** An entry is shown when its action, user or target contains the
      search term, ignoring case, and the type filter is 'all' or equals
      its type. */
  predicate Shown(log: LogEntry, searchTerm: string, filterType: string)
  {
    var term := Lower(searchTerm);
    (Contains(Lower(log.action), term) || Contains(Lower(log.user), term) || Contains(Lower(log.target), term)) &&
    (filterType == "all" || log.logType == filterType)
  }

  /** `filteredLogs`: the shown entries, in log order. */
  function FilteredLogs(logs: seq<LogEntry>, searchTerm: string, filterType: string): (r: seq<LogEntry>)
    ensures IsSubseq(r, logs)
    ensures forall x :: x in r <==> x in logs && Shown(x, searchTerm, filterType)
  {
    var p := (x: LogEntry) => Shown(x, searchTerm, filterType);
    FilterIsSubseq(logs, p);
    forall x
      ensures x in Filter(logs, p) <==> x in logs && p(x)
    {
      FilterMember(logs, p, x);
    }
    Filter(logs, p)
  }

  /** An empty search with the 'all' filter lists every entry, in order. */
  lemma EmptySearchShowsAll(logs: seq<LogEntry>)
    ensures FilteredLogs(logs, "", "all") == logs
  {
    forall i | 0 <= i < |logs|
      ensures Shown(logs[i], "", "all")
    {
      ContainsTrivial(Lower(logs[i].action));
    }
    FilterAll(logs, (x: LogEntry) => Shown(x, "", "all"));
  }

  /** The severity as displayed: its first letter in upper case. */
  function SeverityLabel(severity: string): (text: string)
    ensures |text| == |severity|
    ensures severity != "" ==> text[0] == UpperChar(severity[0]) && text[1..] == severity[1..]
  {
    Capitalize(severity)
  }

  /** The summary counts. */
  datatype LogStats = LogStats(total: nat, security: nat, failedLogins: nat, system: nat)

  /** Total events, 'security' and 'system' events, and 'Failed Logins':
      the actions containing 'Failed', with that capitalisation. */
  function Stats(logs: seq<LogEntry>): (s: LogStats)
    ensures s.total == |logs|
    ensures s.security + s.system <= s.total
    ensures s.failedLogins <= s.total
  {
    var security := (l: LogEntry) => l.logType == "security";
    var system := (l: LogEntry) => l.logType == "system";
    FilterDisjointCounts(logs, security, system);
    LogStats(|logs|, |Filter(logs, security)|, |Filter(logs, (l: LogEntry) => Contains(l.action, "Failed"))|,
             |Filter(logs, system)|)
  }

  /** The failed-login count is case-sensitive: an action spelled
      'failed login' is not counted. */
  lemma FailedCountIsCaseSensitive(log: LogEntry)
    requires log.action == "failed login"
    ensures Stats([log]).failedLogins == 0
  {
    var action := log.action;
    forall i: nat
      ensures !OccursAt(action, "Failed", i)
    {
      if i + 6 <= |action| {
        assert action[i..i + 6][0] == action[i] != 'F';
      }
    }
    ContainsIff(action, "Failed");
    assert Filter([log], (l: LogEntry) => Contains(l.action, "Failed")) == [];
  }
}
