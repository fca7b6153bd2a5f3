/** The customer's assessment page (`AssessmentModule`): which view it
    shows (designation wizard, start screen, assessment, or the three
    result tabs), the effect that chooses the view from the user's
    designation and assessments, and the handlers that move between
    views. */
module AssessmentModule {
  import opened Common
  import opened Dicts
  import opened Nis2Compliance
  import opened Nis2Store

  datatype View = DesignationView | StartView | AssessmentView | DashboardView | ReportView | RoadmapView

  /** The views reachable through the tab bar. */
  predicate IsTab(v: View)
  {
    v == DashboardView || v == ReportView || v == RoadmapView
  }

  /** `userAssessments`: the assessments of this user, in store order. */
  function UserAssessments(assessments: seq<Assessment>, userId: string): (mine: seq<Assessment>)
    ensures IsSubseq(mine, assessments)
    ensures forall a :: a in mine <==> a in assessments && a.customerId == userId
  {
    var mine := Filter(assessments, OfCustomer(userId));
    FilterIsSubseq(assessments, OfCustomer(userId));
    forall a ensures a in mine <==> a in assessments && a.customerId == userId {
      FilterMember(assessments, OfCustomer(userId), a);
    }
    mine
  }

  /** The view the effect selects, and the assessment it makes current
      (`None`: it leaves the current assessment as it is). */
  function SelectView(designation: Option<Designation>, userAssessments: seq<Assessment>): (View, Option<Assessment>)
  {
    if designation.None? then (DesignationView, None)
    else if |userAssessments| == 0 then (StartView, None)
    else
      var latest := Latest(userAssessments);
      if latest.status == IN_PROGRESS then (AssessmentView, Some(latest)) else (DashboardView, None)
  }

  /** The selection, case by case: the wizard iff there is no designation;
      the start screen iff there is one but the user has no assessment;
      otherwise the latest assessment decides: in progress, it is resumed
      and becomes current, else the dashboard. The effect never selects
      the report or roadmap tab. */
  lemma SelectViewCases(designation: Option<Designation>, assessments: seq<Assessment>, userId: string)
    ensures var mine := UserAssessments(assessments, userId);
      var (view, current) := SelectView(designation, mine);
      (view == DesignationView <==> designation.None?) &&
      (view == StartView <==> designation.Some? && forall a :: a in assessments ==> a.customerId != userId) &&
      (view == AssessmentView <==> designation.Some? && |mine| > 0 && Latest(mine).status == IN_PROGRESS) &&
      (view == DashboardView <==> designation.Some? && |mine| > 0 && Latest(mine).status != IN_PROGRESS) &&
      (current.Some? <==> view == AssessmentView) &&
      (current.Some? ==>
         current.value in assessments && current.value.customerId == userId &&
         forall a :: a in assessments && a.customerId == userId ==> a.updatedAt <= current.value.updatedAt) &&
      view != ReportView && view != RoadmapView
  {
    var mine := UserAssessments(assessments, userId);
    if |mine| > 0 {
      LatestIsNewest(mine);
      assert Latest(mine) in mine;
    } else {
      forall a | a in assessments ensures a.customerId != userId {
        assert a !in mine;
      }
    }
  }

  /** The page's state. */
  class AssessmentPage {
    const userId: string
    const store: Nis2Store
    var currentView: View
    var currentAssessment: Option<Assessment>

    ghost predicate Valid()
      reads this, store
    {
      store.Valid()
    }

    constructor(userId: string, store: Nis2Store)
      requires store.Valid()
      ensures Valid() && this.userId == userId && this.store == store
      ensures currentView == DesignationView && currentAssessment.None?
    {
      this.userId := userId;
      this.store := store;
      currentView := DesignationView;
      currentAssessment := None;
    }

    /** The view-selection effect over the store's current state. Its
        dependency `userAssessments` is a new array on every render, so it
        runs after every render. */
    method SyncView()
      requires Valid()
      modifies this
      ensures Valid()
      ensures var (view, current) := SelectView(store.designations.Get(userId),
                                                UserAssessments(store.assessments.Values(), userId));
        currentView == view &&
        currentAssessment == if current.Some? then current else old(currentAssessment)
    {
      var designation := store.designations.Get(userId);
      var mine := UserAssessments(store.assessments.Values(), userId);
      var choice := SelectView(designation, mine);
      currentView := choice.0;
      if choice.1.Some? {
        currentAssessment := choice.1;
      }
    }

    /** `handleDesignationComplete`. */
    method DesignationComplete()
      requires Valid()
      modifies this
      ensures Valid() && currentView == StartView && currentAssessment == old(currentAssessment)
    {
      currentView := StartView;
    }

    /** `handleStartAssessment`: starts an assessment for the user, makes
        it current (nothing, without a designation) and shows it. */
    method StartAssessment(id: string, now: int)
      requires Valid()
      modifies this, store
      ensures Valid() && currentView == AssessmentView
      ensures currentAssessment.None? <==> userId !in old(store.designations).vals
      ensures currentAssessment.Some? ==>
                currentAssessment.value == NewAssessment(old(store.designations).vals[userId], id, now) &&
                store.assessments == old(store.assessments).Put(id, currentAssessment.value)
      ensures store.designations == old(store.designations) && store.evidence == old(store.evidence)
    {
      currentAssessment := store.StartAssessment(userId, id, now);
      currentView := AssessmentView;
    }

    /** `handleAssessmentComplete`. */
    method AssessmentComplete()
      requires Valid()
      modifies this
      ensures Valid() && currentView == DashboardView && currentAssessment.None?
    {
      currentView := DashboardView;
      currentAssessment := None;
    }

    /** A click on one of the tabs, which are shown on the three result
        views. */
    method SelectTab(tab: View)
      requires Valid() && IsTab(currentView) && IsTab(tab)
      modifies this
      ensures Valid() && currentView == tab && IsTab(currentView)
      ensures currentAssessment == old(currentAssessment)
    {
      currentView := tab;
    }
  }

  /** Once an assessment has been started, the effect keeps showing it:
      nothing marks an assessment finished, so the user's latest
      assessment stays in progress and the effect selects it again after
      completion or a tab click. */
  lemma StartedAssessmentIsResumed(d: Designation, assessments: seq<Assessment>, userId: string)
    requires exists i :: 0 <= i < |assessments| && assessments[i].customerId == userId
    requires forall i :: 0 <= i < |assessments| ==> assessments[i].status == IN_PROGRESS
    ensures SelectView(Some(d), UserAssessments(assessments, userId)).0 == AssessmentView
  {
    var mine := UserAssessments(assessments, userId);
    var i :| 0 <= i < |assessments| && assessments[i].customerId == userId;
    assert assessments[i] in mine;
    LatestIsNewest(mine);
    assert Latest(mine) in assessments;
  }
}
