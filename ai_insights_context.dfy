/** AI insights (`AIInsightsContext`): the keyword parser for natural
    language queries, the query cache in front of the response generator,
    and the consistency and confidence figures of a compliance history.
    The response generator itself is a parameter. */
module AIInsightsContext {
  import opened Common
  import opened Dicts
  import opened Text
  import opened AnalyticsContext

  /** The keys of the control catalog, which the parser looks for. */
  const CATALOG_KEYS: seq<string> := ["belgium"]

  /** The four components the parser extracts; `None` is `null`. */
  datatype QueryComponents = QueryComponents(
    entityType: Option<string>,
    riskLevel: Option<string>,
    controlArea: Option<string>,
    timePeriod: Option<string>)

  /** The generated response, opaque here. */
  datatype QueryResponse = QueryResponse(content: string)

  /** An exact fraction `num / den`. */
  datatype Fraction = Fraction(num: int, den: nat)

  /** The last key whose lower-case form occurs in the query. */
  function LastContained(query: string, keys: seq<string>): (r: Option<string>)
    ensures r.Some? ==> r.value in keys && Contains(query, Lower(r.value))
    ensures r.None? <==> forall i :: 0 <= i < |keys| ==> !Contains(query, Lower(keys[i]))
  {
    if keys == [] then None
    else if Contains(query, Lower(keys[|keys| - 1])) then Some(keys[|keys| - 1])
    else
      var r := LastContained(query, keys[..|keys| - 1]);
      assert forall i :: 0 <= i < |keys| - 1 ==> keys[..|keys| - 1][i] == keys[i];
      r
  }

  /** `parseNaturalLanguageQuery`: each check that matches overwrites the
      earlier ones, so 'important' wins over 'essential', 'low' over
      'medium' over 'high', 'last year' over 'last month' over 'last
      week', and the control area is the last catalog key in the query. */
  method ParseNaturalLanguageQuery(query: string) returns (c: QueryComponents)
    ensures c.entityType ==
      if Contains(query, "important") then Some("important")
      else if Contains(query, "essential") then Some("essential")
      else None
    ensures c.riskLevel ==
      if Contains(query, "low") then Some("low")
      else if Contains(query, "medium") then Some("medium")
      else if Contains(query, "high") then Some("high")
      else None
    ensures c.controlArea == LastContained(query, CATALOG_KEYS)
    ensures c.timePeriod ==
      if Contains(query, "last year") then Some("year")
      else if Contains(query, "last month") then Some("month")
      else if Contains(query, "last week") then Some("week")
      else None
  {
    var entityType: Option<string> := None;
    var riskLevel: Option<string> := None;
    var controlArea: Option<string> := None;
    var timePeriod: Option<string> := None;

    if Contains(query, "essential") { entityType := Some("essential"); }
    if Contains(query, "important") { entityType := Some("important"); }

    if Contains(query, "high") { riskLevel := Some("high"); }
    if Contains(query, "medium") { riskLevel := Some("medium"); }
    if Contains(query, "low") { riskLevel := Some("low"); }

    var i := 0;
    while i < |CATALOG_KEYS|
      invariant 0 <= i <= |CATALOG_KEYS|
      invariant controlArea == LastContained(query, CATALOG_KEYS[..i])
    {
      assert CATALOG_KEYS[..i + 1][..i] == CATALOG_KEYS[..i];
      if Contains(query, Lower(CATALOG_KEYS[i])) {
        controlArea := Some(CATALOG_KEYS[i]);
      }
      i := i + 1;
    }
    assert CATALOG_KEYS[..i] == CATALOG_KEYS;

    if Contains(query, "last week") { timePeriod := Some("week"); }
    if Contains(query, "last month") { timePeriod := Some("month"); }
    if Contains(query, "last year") { timePeriod := Some("year"); }

    c := QueryComponents(entityType, riskLevel, controlArea, timePeriod);
  }

  /** The cache key: the normalised query and the serialised context. */
  function CacheKey(normalizedQuery: string, contextJson: string): (k: string)
    ensures normalizedQuery <= k
  {
    normalizedQuery + "_" + contextJson
  }

  /** `query.toLowerCase().trim()`: no upper-case letter and no white
      space at either end. */
  function Normalize(query: string): (n: string)
    ensures forall i :: 0 <= i < |n| ==> !('A' <= n[i] <= 'Z')
    ensures n != [] ==> !IsSpace(n[0]) && !IsSpace(n[|n| - 1])
  {
    NormalizedHasNoUpper(query);
    Trim(Lower(query))
  }

  /** Lower-casing leaves no upper-case letter, and trimming adds none. */
  lemma NormalizedHasNoUpper(query: string)
    ensures forall j :: 0 <= j < |Trim(Lower(query))| ==> !('A' <= Trim(Lower(query))[j] <= 'Z')
  {
    var s := Lower(query);
    LowerAt(query);
    var n := Trim(s);
    var i: nat :| OccursAt(s, n, i);
    forall j | 0 <= j < |n| ensures !('A' <= n[j] <= 'Z') {
      assert n[j] == s[i + j] == LowerChar(query[i + j]);
    }
  }

  /** The query cache. */
  class InsightsStore {
    var queryCache: Dict<string, QueryResponse>

    ghost predicate Valid()
      reads this
    {
      queryCache.Valid()
    }

    constructor(cache: Dict<string, QueryResponse>)
      requires cache.Valid()
      ensures Valid() && queryCache == cache
    {
      queryCache := cache;
    }

    /** `processQuery`: a cached response is returned unchanged and the
        cache stays as it is; otherwise the parsed query is answered and
        the answer cached under its key. */
    method ProcessQuery(query: string, contextJson: string, respond: (QueryComponents, string) -> QueryResponse)
      returns (r: QueryResponse)
      requires Valid()
      modifies this
      ensures Valid()
      ensures var key := CacheKey(Normalize(query), contextJson);
        (key in old(queryCache).vals ==> r == old(queryCache).vals[key] && queryCache == old(queryCache)) &&
        (key !in old(queryCache).vals ==> queryCache == old(queryCache).Put(key, r)) &&
        queryCache.Get(key) == Some(r)
    {
      var normalized := Normalize(query);
      var key := CacheKey(normalized, contextJson);
      var hit := queryCache.Get(key);
      if hit.Some? {
        return hit.value;
      }
      var components := ParseNaturalLanguageQuery(normalized);
      r := respond(components, contextJson);
      PutValid(queryCache, key, r);
      queryCache := queryCache.Put(key, r);
    }
  }

  /** The neighbouring score changes of more than 10 points. */
  function Variations(history: seq<TrendPoint>): (v: nat)
    ensures |history| >= 1 ==> v <= |history| - 1
    ensures |history| < 2 ==> v == 0
  {
    if |history| < 2 then 0
    else
      var change := history[|history| - 1].score - history[|history| - 2].score;
      Variations(history[..|history| - 1]) + (if change > 10 || change < -10 then 1 else 0)
  }

  /** `calculateDataConsistency`: 0.5 for fewer than two points, else one
      minus the share of large changes, which stays in (0, 1]. */
  method CalculateDataConsistency(history: seq<TrendPoint>) returns (c: Fraction)
    ensures |history| < 2 ==> c == Fraction(1, 2)
    ensures |history| >= 2 ==> c == Fraction(|history| - Variations(history), |history|)
    ensures 0 < c.num <= c.den
  {
    if |history| < 2 {
      return Fraction(1, 2);
    }
    var variations := 0;
    var i := 1;
    while i < |history|
      invariant 1 <= i <= |history|
      invariant variations == Variations(history[..i])
    {
      var change := history[i].score - history[i - 1].score;
      var magnitude := if change < 0 then -change else change;
      assert history[..i + 1][..i] == history[..i];
      if magnitude > 10 {
        variations := variations + 1;
      }
      i := i + 1;
    }
    assert history[..i] == history;
    c := Fraction(|history| - variations, |history|);
  }

  /** The consistency as a function, for use in specifications. */
  function DataConsistency(history: seq<TrendPoint>): (c: Fraction)
    ensures 0 < c.num <= c.den
  {
    if |history| < 2 then Fraction(1, 2) else Fraction(|history| - Variations(history), |history|)
  }

  /** `calculatePredictionConfidence`: the number of points over 30 times
      the consistency, capped at 0.95. */
  function PredictionConfidence(history: seq<TrendPoint>): (f: Fraction)
    ensures f.den > 0 && 0 <= f.num
    ensures 100 * f.num <= 95 * f.den
    ensures |history| == 0 ==> f.num == 0
  {
    var c := DataConsistency(history);
    var raw := Fraction(|history| * c.num, 30 * c.den);
    if 100 * raw.num <= 95 * raw.den then raw else Fraction(95, 100)
  }

  /** Steady histories are fully consistent: with no change above 10 the
      consistency is 1. */
  lemma {:induction false} SteadyHistoryConsistent(history: seq<TrendPoint>)
    requires |history| >= 2
    requires forall i :: 1 <= i < |history| ==> -10 <= history[i].score - history[i - 1].score <= 10
    ensures DataConsistency(history).num == DataConsistency(history).den
  {
    NoVariations(history);
  }

  lemma {:induction false} NoVariations(history: seq<TrendPoint>)
    requires forall i :: 1 <= i < |history| ==> -10 <= history[i].score - history[i - 1].score <= 10
    ensures Variations(history) == 0
  {
    if |history| >= 2 {
      var init := history[..|history| - 1];
      assert forall i :: 0 <= i < |init| ==> init[i] == history[i];
      NoVariations(init);
    }
  }
}
