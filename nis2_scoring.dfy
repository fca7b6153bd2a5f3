/** The keyword-overlap scorer (`analyzeResponse`): each requirement whose
    words mostly occur in the answer earns a fixed 25 points; every other
    requirement becomes a gap. */
module Nis2Scoring {
  import opened Common
  import opened Text

  /** A requirement the answer does not yet cover, with suggested actions. */
  datatype Gap = Gap(requirement: string, reason: string, suggestions: seq<string>)

  /** The status of one control. `NotAssessed` is only produced by the
      aggregator, for controls without answers. */
  datatype Status = Compliant | PartiallyCompliant | NonCompliant | NotAssessed

  /** The result of `analyzeResponse`. Its constant `confidence: 0.85` is
      not part of the model. */
  datatype Analysis = Analysis(score: nat, status: Status, gaps: seq<Gap>)

  const POINTS_PER_REQUIREMENT: nat := 25

  /** `requirement.toLowerCase().split(' ')`. */
  function RequirementWords(requirement: string): (r: seq<string>)
    ensures |r| >= 1
  {
    Split(Lower(requirement), ' ')
  }

  /** The words of the requirement that occur in the (lowercased) answer. */
  function MatchedWords(keywords: string, words: seq<string>): (r: seq<string>)
    ensures |r| <= |words|
  {
    Filter(words, w => Contains(keywords, w))
  }

  /** `matches / reqKeywords.length > 0.7`, stated exactly on integers:
      more than 70% of the requirement's words occur in the answer. */
  predicate Met(keywords: string, requirement: string)
  {
    var words := RequirementWords(requirement);
    10 * |MatchedWords(keywords, words)| > 7 * |words|
  }

  /** The gap recorded for an unmet requirement. */
  function InsufficientGap(requirement: string): (g: Gap)
    ensures g.requirement == requirement && |g.suggestions| == 2
  {
    Gap(requirement, "Insufficient evidence for: " + requirement,
      ["Provide documentation for " + requirement, "Implement controls for " + requirement])
  }

  /** The test `Met(keywords, r)` as a value. */
  function MetIn(keywords: string): string -> bool
  {
    r => Met(keywords, r)
  }

  /** How many of `reqs` pass the test `met`. */
  function MetCount(met: string -> bool, reqs: seq<string>): (n: nat)
    ensures n <= |reqs|
  {
    if reqs == [] then 0
    else MetCount(met, reqs[..|reqs| - 1]) + (if met(reqs[|reqs| - 1]) then 1 else 0)
  }

  /** The gaps pushed while walking `reqs`, in order. */
  function Gaps(met: string -> bool, reqs: seq<string>): seq<Gap>
  {
    if reqs == [] then []
    else
      var last := reqs[|reqs| - 1];
      Gaps(met, reqs[..|reqs| - 1]) + (if met(last) then [] else [InsufficientGap(last)])
  }

  /** The status thresholds, applied to the score before it is capped. */
  function StatusFor(rawScore: nat): (s: Status)
    ensures s != NotAssessed
  {
    if rawScore >= 80 then Compliant
    else if rawScore >= 50 then PartiallyCompliant
    else NonCompliant
  }

  /** What `analyzeResponse(response, reqs)` returns. */
  function Analyze(response: string, reqs: seq<string>): Analysis
  {
    var met := MetIn(Lower(response));
    var raw := POINTS_PER_REQUIREMENT * MetCount(met, reqs);
    Analysis(if raw < 100 then raw else 100, StatusFor(raw), Gaps(met, reqs))
  }

  /** `analyzeResponse`: one pass over the requirements with a running
      score and a growing list of gaps. */
  method AnalyzeResponse(response: string, reqs: seq<string>) returns (a: Analysis)
    ensures a == Analyze(response, reqs)
  {
    var keywords := Lower(response);
    var score: nat := 0;
    var gaps: seq<Gap> := [];
    var i := 0;
    while i < |reqs|
      invariant 0 <= i <= |reqs|
      invariant score == POINTS_PER_REQUIREMENT * MetCount(MetIn(keywords), reqs[..i])
      invariant gaps == Gaps(MetIn(keywords), reqs[..i])
    {
      var requirement := reqs[i];
      var reqKeywords := RequirementWords(requirement);
      var matches := |MatchedWords(keywords, reqKeywords)|;
      AnalyzeStep(MetIn(keywords), reqs, i);
      assert MetIn(keywords)(requirement) <==> 10 * matches > 7 * |reqKeywords|;
      if 10 * matches > 7 * |reqKeywords| {
        score := score + 25;
      } else {
        gaps := gaps + [InsufficientGap(requirement)];
      }
      i := i + 1;
    }
    assert reqs[..|reqs|] == reqs;
    a := Analysis(if score < 100 then score else 100,
      if score >= 80 then Compliant else if score >= 50 then PartiallyCompliant else NonCompliant,
      gaps);
  }

  /** One more requirement walked adds its point or its gap. */
  lemma AnalyzeStep(met: string -> bool, reqs: seq<string>, i: nat)
    requires i < |reqs|
    ensures MetCount(met, reqs[..i + 1]) == MetCount(met, reqs[..i]) + (if met(reqs[i]) then 1 else 0)
    ensures Gaps(met, reqs[..i + 1]) == Gaps(met, reqs[..i]) + (if met(reqs[i]) then [] else [InsufficientGap(reqs[i])])
  {
    assert reqs[..i + 1][..i] == reqs[..i];
  }

  /** The negation of a test. */
  function Not(met: string -> bool): string -> bool
  {
    r => !met(r)
  }

  /** The requirements that fail the test, in order. */
  function Unmet(met: string -> bool, reqs: seq<string>): seq<string>
  {
    Filter(reqs, Not(met))
  }

  /** There is exactly one gap per unmet requirement, in requirement order,
      so met requirements and gaps together account for every requirement. */
  lemma {:induction false} GapsAreUnmet(met: string -> bool, reqs: seq<string>)
    ensures |Gaps(met, reqs)| == |Unmet(met, reqs)|
    ensures forall i :: 0 <= i < |Gaps(met, reqs)| ==>
              Gaps(met, reqs)[i] == InsufficientGap(Unmet(met, reqs)[i])
    ensures MetCount(met, reqs) + |Gaps(met, reqs)| == |reqs|
  {
    if reqs != [] {
      var init, last := reqs[..|reqs| - 1], reqs[|reqs| - 1];
      GapsAreUnmet(met, init);
      assert reqs == init + [last];
      FilterConcat(init, [last], Not(met));
    }
  }

  /** The score is 25 per met requirement, capped at 100. */
  lemma ScoreIsCapped(response: string, reqs: seq<string>)
    ensures Analyze(response, reqs).score <= 100
    ensures Analyze(response, reqs).score ==
              if 25 * MetCount(MetIn(Lower(response)), reqs) < 100 then 25 * MetCount(MetIn(Lower(response)), reqs) else 100
    ensures Analyze(response, reqs).score % 25 == 0
  {
    CappedMultiple(MetCount(MetIn(Lower(response)), reqs));
  }

  lemma CappedMultiple(n: nat)
    ensures (if 25 * n < 100 then 25 * n else 100) % 25 == 0
  {
    if n < 4 {
      assert n == 0 || n == 1 || n == 2 || n == 3;
    }
  }

  /** In terms of met requirements: four or more make the control
      compliant (score 100), two or three partially compliant, fewer
      non-compliant. So the status is a function of the capped score. */
  lemma StatusByMetCount(response: string, reqs: seq<string>)
    ensures var a, n := Analyze(response, reqs), MetCount(MetIn(Lower(response)), reqs);
      (a.status == Compliant <==> n >= 4) &&
      (a.status == PartiallyCompliant <==> 2 <= n <= 3) &&
      (a.status == NonCompliant <==> n <= 1) &&
      (a.status == Compliant <==> a.score == 100) &&
      (a.status == PartiallyCompliant <==> a.score == 50 || a.score == 75) &&
      (a.status == NonCompliant <==> a.score == 0 || a.score == 25)
  {
  }

  /** A control without requirements scores 0 and is non-compliant, with
      no gaps. */
  lemma NoRequirements(response: string)
    ensures Analyze(response, []) == Analysis(0, NonCompliant, [])
  {
  }

  /** An answer that quotes a requirement (in any letter case) meets it:
      every word of the requirement occurs in the requirement itself. */
  lemma QuotedRequirementIsMet(response: string, requirement: string)
    requires Contains(Lower(response), Lower(requirement))
    ensures Met(Lower(response), requirement)
  {
    var keywords := Lower(response);
    var words := RequirementWords(requirement);
    forall k | 0 <= k < |words| ensures Contains(keywords, words[k]) {
      SplitPiecesOccur(Lower(requirement), ' ', k);
      ContainsTransitive(keywords, Lower(requirement), words[k]);
    }
    FilterAll(words, w => Contains(keywords, w));
  }

  /** An answer that quotes every requirement meets them all. */
  lemma {:induction false} QuotingAllMeetsAll(response: string, reqs: seq<string>)
    requires forall i :: 0 <= i < |reqs| ==> Contains(Lower(response), Lower(reqs[i]))
    ensures MetCount(MetIn(Lower(response)), reqs) == |reqs|
    ensures Gaps(MetIn(Lower(response)), reqs) == []
  {
    if reqs != [] {
      QuotingAllMeetsAll(response, reqs[..|reqs| - 1]);
      QuotedRequirementIsMet(response, reqs[|reqs| - 1]);
    }
  }
}
