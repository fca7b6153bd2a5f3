# NIS2 compliance dashboard — a Dafny model

This project models the logic of a browser-based NIS2 compliance
dashboard (a React application). Three kinds of user sign in to it: a
super-admin, resellers and their customers.

The core is the compliance pipeline of the NIS2 provider:

- a customer's answers about country, sector, size and operational
  technology (OT) give a NIS2 designation (essential, important or other)
  and a list of applicable controls from the Belgian CyFun catalog;
- an AI-style questionnaire asks two questions per control plus one per
  requirement (six for every control of the shipped catalog, which all
  have four requirements);
- each control's answers are scored against its requirements by keyword
  matching;
- the scores add up to a compliance status with a maturity level;
- the open gaps become a roadmap of weekly tasks.

Around that core the model covers:

- the risk register: risks identified from compliance gaps, treatments,
  and prioritisation;
- the project board: tasks generated from the roadmap and from risk
  treatments, with comments and dependencies;
- analytics: trends, benchmarks and percentiles;
- the natural-language query parser and its cache;
- the knowledge base search;
- the user database, login and session restore, and the route guard;
- the security store: MFA records, custom roles, permissions, the audit
  log;
- the filters and counters of the customer, reseller and super-admin
  pages.

## How the model is built

- Each provider (React context) whose state is updated in place is a
  class. Its `useState` objects are fields of type `Dict` (an
  insertion-ordered dictionary, since the code depends on the order of
  `Object.values`) or `seq`. Its callbacks are methods with `modifies`
  clauses.
- Pure helpers (designation, scoring, filters, comparators) are functions.
- Loops in the source are methods with loop invariants, each proved
  against a specification function. This covers the roadmap generation,
  the response analysis, risk identification, task generation, the key
  removal in `deleteTask` and the data-consistency count.
- Generated ids (`uuidv4()`, `Date.now()`-based ids) and the clock are
  parameters. Timestamps are integer milliseconds.
- Ratios the source computes in floating point are exact fractions or
  integer comparisons. `Math.round` is round-half-up on a non-negative
  fraction.

## Model

| member | source | states |
|---|---|---|
| Nis2Designation.Catalog | src/contexts/NIS2Context.jsx:16-94 | only Belgium has a control catalog |
| Nis2Designation.Sector | src/contexts/NIS2Context.jsx:97-134 | a sector record exists exactly for the listed industries |
| Nis2Designation.DetermineDesignation | src/contexts/NIS2Context.jsx:194-206 | essential iff the sector is typically essential and the company is large or runs OT; important iff the sector is typically essential otherwise; other for every other industry, known or not |
| Nis2Designation.ApplicableControls | src/contexts/NIS2Context.jsx:209-229 | no controls for an unknown country; otherwise a subsequence of the catalog |
| Nis2Designation.ApplicableControlsMembers | src/contexts/NIS2Context.jsx:209-229 | a control applies iff it is in the catalog, lists the industry, is not OT-only for a customer without OT, and passes the tier check |
| Nis2Designation.TierNeverExcludes | src/contexts/NIS2Context.jsx:16-94 | with the shipped catalog the tier never excludes a control; two forms with the same country, industry and OT answer get the same controls |
| Nis2Designation.BelgianEnergyWithOt | src/contexts/NIS2Context.jsx:209-229 | a Belgian energy company with OT gets exactly the two risk-management controls and the OT control |
| Nis2Designation.BankingHasNoOtControl | src/contexts/NIS2Context.jsx:209-229 | a bank never gets the OT control |
| Nis2Scoring.RequirementWords | src/contexts/NIS2Context.jsx:303 | at least one word, so the match ratio is always defined |
| Nis2Scoring.MatchedWords | src/contexts/NIS2Context.jsx:304 | no more matched words than requirement words |
| Nis2Scoring.InsufficientGap | src/contexts/NIS2Context.jsx:310-314 | the gap names the requirement and carries two suggestions |
| Nis2Scoring.MetCount | src/contexts/NIS2Context.jsx:302-316 | the number of requirements passing the test, at most their count |
| Nis2Scoring.StatusFor | src/contexts/NIS2Context.jsx:320 | never the not-assessed status |
| Nis2Scoring.AnalyzeResponse | src/contexts/NIS2Context.jsx:296-324 | the loop returns the capped score, the status and the gaps of the specification |
| Nis2Scoring.GapsAreUnmet | src/contexts/NIS2Context.jsx:302-316 | one gap per unmet requirement, in order; met and gaps add up to all requirements |
| Nis2Scoring.ScoreIsCapped | src/contexts/NIS2Context.jsx:308-319 | the score is 25 per met requirement, capped at 100 |
| Nis2Scoring.StatusByMetCount | src/contexts/NIS2Context.jsx:319-320 | four or more met: compliant, score 100; two or three: partial; fewer: non-compliant |
| Nis2Scoring.NoRequirements | src/contexts/NIS2Context.jsx:296-324 | a control without requirements scores 0, non-compliant, no gaps |
| Nis2Scoring.QuotedRequirementIsMet | src/contexts/NIS2Context.jsx:303-307 | an answer that quotes a requirement in any letter case meets it |
| Nis2Scoring.QuotingAllMeetsAll | src/contexts/NIS2Context.jsx:296-324 | an answer quoting every requirement meets them all and has no gaps |
| Nis2Compliance.ControlQuestionIds | src/contexts/NIS2Context.jsx:338-339 | every id found is a response id that starts with the control id |
| Nis2Compliance.NotAssessedStatus | src/contexts/NIS2Context.jsx:341-351 | score 0 and one 'Not yet assessed' gap per requirement |
| Nis2Compliance.ControlStatuses | src/contexts/NIS2Context.jsx:337-360 | one status per applicable control, in order, each naming its control |
| Nis2Compliance.NewerFirstIsTotalPreorder | src/contexts/NIS2Context.jsx:333-335 | the newest-first comparator is a total preorder |
| Nis2Compliance.LatestIsNewest | src/contexts/NIS2Context.jsx:333-335 | the latest assessment is the customer's and none of theirs is newer |
| Nis2Compliance.ComplianceShape | src/contexts/NIS2Context.jsx:327-375 | no result without a designation or an assessment; else one status per applicable control |
| Nis2Compliance.ComplianceUsesLatest | src/contexts/NIS2Context.jsx:331-360 | each control's status comes from the latest assessment's responses |
| Nis2Compliance.ControlStatusCases | src/contexts/NIS2Context.jsx:341-358 | not assessed iff no response id starts with the control id; otherwise the scorer's result on the joined answers |
| Nis2Compliance.AggregateFigures | src/contexts/NIS2Context.jsx:362-371 | overall score is the rounded mean (absent for no controls), at most 100; maturity thresholds 80 and 60 on the unrounded mean; compliant controls at most total controls |
| Nis2Roadmap.SuggestionEmissions | src/contexts/NIS2Context.jsx:388-402 | one push per suggestion of the gap, in order |
| Nis2Roadmap.Weeks | src/contexts/NIS2Context.jsx:399 | a delay that is never negative (WeeksStep: each step adds one week) |
| Nis2Roadmap.TasksOf | src/contexts/NIS2Context.jsx:388-402 | one task per push, the counter starting at 1 |
| Nis2Roadmap.PushGapTasks | src/contexts/NIS2Context.jsx:388-402 | the inner loop pushes the tasks of one gap |
| Nis2Roadmap.PushControlTasks | src/contexts/NIS2Context.jsx:386-404 | the middle loop pushes the tasks of one control |
| Nis2Roadmap.GenerateComplianceRoadmap | src/contexts/NIS2Context.jsx:378-412 | the loops' result is the first twenty tasks of the specification |
| Nis2Roadmap.RoadmapIsFirstTwenty | src/contexts/NIS2Context.jsx:378-412 | null iff the status is null; else the first twenty generated tasks, in order |
| Nis2Roadmap.DueDatesWeekly | src/contexts/NIS2Context.jsx:399 | the k-th task is due k + 1 weeks after now |
| Nis2Roadmap.EmissionsFromOpenControls | src/contexts/NIS2Context.jsx:385-394 | tasks come only from controls that are not compliant; high priority iff non-compliant |
| Nis2Roadmap.AllCompliantNoTasks | src/contexts/NIS2Context.jsx:386 | every control compliant gives no tasks |
| Nis2Roadmap.TaskPriorities | src/contexts/NIS2Context.jsx:394 | each task is high priority iff its control is non-compliant, and names that control |
| Nis2Roadmap.EmissionsOrdered | src/contexts/NIS2Context.jsx:385-405 | pushes come in control, gap, suggestion order |
| Nis2Roadmap.TaskIdInjective | src/contexts/NIS2Context.jsx:390 | equal task ids mean equal control, gap and suggestion indices |
| Nis2Roadmap.TaskIdsDistinct | src/contexts/NIS2Context.jsx:390 | no two roadmap tasks share an id |
| Nis2Store.NewDesignation | src/contexts/NIS2Context.jsx:170-191 | the designation carries the tier and the applicable controls of the form |
| Nis2Store.NewAssessment | src/contexts/NIS2Context.jsx:232-256 | a new assessment is in progress with no responses, for the designation's controls |
| Nis2Store.WithResponse | src/contexts/NIS2Context.jsx:259-271 | the response is stored under the question id, other responses kept |
| Nis2Store.Nis2Store.constructor | src/contexts/NIS2Context.jsx:138-140 | empty designations, assessments and evidence |
| Nis2Store.Nis2Store.CreateCustomerDesignation | src/contexts/NIS2Context.jsx:170-191 | stores the designation under the customer, replacing any earlier one; nothing else changes |
| Nis2Store.Nis2Store.StartAssessment | src/contexts/NIS2Context.jsx:232-256 | null without a designation; else a new assessment stored under its id |
| Nis2Store.Nis2Store.UpdateAssessmentResponse | src/contexts/NIS2Context.jsx:259-271 | records the response for an existing assessment, nothing else changed (an absent id: see Left out) |
| Nis2Store.Nis2Store.SubmitEvidence | src/contexts/NIS2Context.jsx:274-293 | stores the evidence under a new id; nothing else changes |
| Nis2Store.Nis2Store.ComplianceStatusOf | src/contexts/NIS2Context.jsx:327-375 | the compliance status of the current state |
| Nis2Store.Nis2Store.GenerateComplianceRoadmap | src/contexts/NIS2Context.jsx:378-412 | the roadmap of the current compliance status |
| Nis2Store.PutResponsesValid | src/contexts/NIS2Context.jsx:259-271 | storing a well-formed assessment keeps every stored one well formed |
| Nis2Store.AnsweredControlIsAssessed | src/contexts/NIS2Context.jsx:338-358 | answering a question of a control makes it assessed in the next calculation |
| AssessmentInterface.GenerateQuestions | src/components/nis2/AIAssessmentInterface.jsx:22-51 | no questions without a control; else two plus one per requirement |
| AssessmentInterface.QuestionsOfControl | src/components/nis2/AIAssessmentInterface.jsx:22-51 | only the evidence question asks for a file; question 2 + i is about requirement i |
| AssessmentInterface.QuestionIdsStartWithControl | src/components/nis2/AIAssessmentInterface.jsx:27-44 | every question id starts with the control id |
| AssessmentInterface.QuestionIdsDistinct | src/components/nis2/AIAssessmentInterface.jsx:27-44 | the questions of a control have distinct ids |
| AssessmentInterface.CurrentControl | src/components/nis2/AIAssessmentInterface.jsx:17-18 | the indexed control, absent past the end |
| AssessmentInterface.AdvanceMovesForward | src/components/nis2/AIAssessmentInterface.jsx:128-139 | the cursor never moves back, and moves forward unless done |
| AssessmentInterface.AdvanceStaysOnQuestions | src/components/nis2/AIAssessmentInterface.jsx:128-139 | advancing from a question lands on a question |
| AssessmentInterface.Progress | src/components/nis2/AIAssessmentInterface.jsx:56-58 | the intended progress is between 0 and 100 |
| AssessmentInterface.AdvanceCompletesOne | src/components/nis2/AIAssessmentInterface.jsx:128-139 | each step completes exactly one more question |
| AssessmentInterface.UniformControlsAgree | src/components/nis2/AIAssessmentInterface.jsx:56-58 | with equal requirement counts the formula as written counts the questions before the cursor |
| AssessmentInterface.UnevenControls | src/components/nis2/AIAssessmentInterface.jsx:22-51 | two controls with 2 and 12 questions |
| AssessmentInterface.ProgressOverflowsWithUnevenControls | src/components/nis2/AIAssessmentInterface.jsx:56-58 | with controls of uneven requirement counts the formula as written reports 164% on a reachable cursor; latent with the shipped catalog, whose controls all have four requirements (UniformControlsAgree) |
| AssessmentInterface.AssessmentSession.constructor | src/components/nis2/AIAssessmentInterface.jsx:11-13 | cursor at the start, the stored responses |
| AssessmentInterface.AssessmentSession.HandleNext | src/components/nis2/AIAssessmentInterface.jsx:128-139 | the cursor advances as specified; done at the end |
| AssessmentInterface.AssessmentSession.HandleSkip | src/components/nis2/AIAssessmentInterface.jsx:140-142 | the same as HandleNext |
| AssessmentInterface.AssessmentSession.HandleResponse | src/components/nis2/AIAssessmentInterface.jsx:61-80 | records the answer here and in the provider; analyses non-blank text answers; advances |
| AssessmentInterface.AnsweringMarksControlAssessed | src/components/nis2/AIAssessmentInterface.jsx:61-80 | an answer to any question of a control makes it assessed |
| DesignationWizard.InitialForm | src/components/nis2/CustomerDesignationWizard.jsx:14-30 | every field empty, OT unanswered, no OT types |
| DesignationWizard.UpdateFormDataOneField | src/components/nis2/CustomerDesignationWizard.jsx:82-87 | sets that field; every other field and the OT details unchanged |
| DesignationWizard.UpdateOtDetailsOneField | src/components/nis2/CustomerDesignationWizard.jsx:89-97 | sets that OT field; every other field unchanged |
| DesignationWizard.ToggleOtType | src/components/nis2/CustomerDesignationWizard.jsx:257-261 | checking appends the type; unchecking removes every occurrence |
| DesignationWizard.PassedStepsMeanCompleteForm | src/components/nis2/CustomerDesignationWizard.jsx:99-112 | passing the steps means country, industry, size, OT answered, an OT type when OT |
| DesignationWizard.PreviewLabel | src/components/nis2/CustomerDesignationWizard.jsx:330 | always Essential or Important |
| DesignationWizard.PreviewDiffersFromDesignation | src/components/nis2/CustomerDesignationWizard.jsx:330 | the preview can disagree with the stored designation (two concrete forms); an essential designation is always previewed Essential |
| DesignationWizard.Wizard.constructor | src/components/nis2/CustomerDesignationWizard.jsx:13-30 | step 0 and the initial form |
| DesignationWizard.Wizard.ClickNext | src/components/nis2/CustomerDesignationWizard.jsx:63-80 | ignored on an invalid step; next step; on the last one the designation is stored |
| DesignationWizard.Wizard.HandlePrevious | src/components/nis2/CustomerDesignationWizard.jsx:71-75 | one step back, nothing at step 0 |
| DesignationWizard.Wizard.SetField | src/components/nis2/CustomerDesignationWizard.jsx:82-87 | the form becomes the updated form |
| DesignationWizard.Wizard.SetOtDetail | src/components/nis2/CustomerDesignationWizard.jsx:89-97 | the OT details become the updated ones |
| AssessmentModule.UserAssessments | src/components/customer/AssessmentModule.jsx:22 | exactly the user's assessments, in store order |
| AssessmentModule.SelectViewCases | src/components/customer/AssessmentModule.jsx:24-42 | wizard iff no designation; start iff no assessment; else resume the latest in-progress one or show the dashboard |
| AssessmentModule.AssessmentPage.constructor | src/components/customer/AssessmentModule.jsx:18-19 | the designation view, no current assessment |
| AssessmentModule.AssessmentPage.SyncView | src/components/customer/AssessmentModule.jsx:24-42 | the view and current assessment the selection gives |
| AssessmentModule.AssessmentPage.DesignationComplete | src/components/customer/AssessmentModule.jsx:44-46 | the start view |
| AssessmentModule.AssessmentPage.StartAssessment | src/components/customer/AssessmentModule.jsx:48-52 | starts an assessment, makes it current, shows it |
| AssessmentModule.AssessmentPage.AssessmentComplete | src/components/customer/AssessmentModule.jsx:54-57 | the dashboard view, no current assessment |
| AssessmentModule.AssessmentPage.SelectTab | src/components/customer/AssessmentModule.jsx:133-137 | the chosen tab's view |
| AssessmentModule.StartedAssessmentIsResumed | src/components/customer/AssessmentModule.jsx:24-42 | once started, the effect keeps resuming the latest assessment |
| RoadmapView.NextStatus | src/components/nis2/ComplianceRoadmap.jsx:238-260 | Start, Complete and Reopen buttons; no button for other statuses |
| RoadmapView.CompletedCount | src/components/nis2/ComplianceRoadmap.jsx:86 | the stored statuses equal to 'completed' |
| RoadmapView.FilteredTasksMembers | src/components/nis2/ComplianceRoadmap.jsx:40-45 | a task is shown iff it passes both filters; order kept; 'all' shows all |
| RoadmapView.StatusCycle | src/components/nis2/ComplianceRoadmap.jsx:238-260 | the buttons cycle pending, in progress, completed, pending |
| RoadmapView.SetStatusAffectsOnlyThatTask | src/components/nis2/ComplianceRoadmap.jsx:23-28 | the set status becomes that task's current status only |
| RoadmapView.ProgressAtMostHundred | src/components/nis2/ComplianceRoadmap.jsx:86-88 | progress is at most 100 while statuses belong to roadmap tasks |
| RoadmapView.AllCompletedIsHundred | src/components/nis2/ComplianceRoadmap.jsx:86-88 | all tasks completed with distinct ids gives 100 |
| RoadmapView.RoadmapPanel.constructor | src/components/nis2/ComplianceRoadmap.jsx:11-14 | no roadmap, 'all' filters, no statuses |
| RoadmapView.RoadmapPanel.Load | src/components/nis2/ComplianceRoadmap.jsx:16-21 | the roadmap generated for the customer; statuses kept |
| RoadmapView.RoadmapPanel.Shown | src/components/nis2/ComplianceRoadmap.jsx:40-45 | the filtered tasks of the loaded roadmap |
| RoadmapView.RoadmapPanel.UpdateTaskStatus | src/components/nis2/ComplianceRoadmap.jsx:23-28 | the status stored under the task id |
| RoadmapView.RoadmapPanel.ClickTaskButton | src/components/nis2/ComplianceRoadmap.jsx:238-260 | the task moves to the next status of the cycle |
| MaturityReport.MaturityDescription | src/components/nis2/MaturityReport.jsx:35-46 | the fallback text iff the level is not one of the three known ones |
| MaturityReport.MaturityRecommendations | src/components/nis2/MaturityReport.jsx:48-73 | four recommendations for each known level, none otherwise |
| MaturityReport.EveryMaturityHasRecommendations | src/components/nis2/MaturityReport.jsx:48-73 | every computed maturity level has four recommendations |
| MaturityReport.ReportShownIffCompliance | src/components/nis2/MaturityReport.jsx:25 | the report is shown iff there is a compliance result |
| MaturityReport.TasksWithPriority | src/components/nis2/MaturityReport.jsx:76-77 | at most five tasks of that priority, in roadmap order |
| MaturityReport.ListedTaskOrigin | src/components/nis2/MaturityReport.jsx:76-77 | a listed task is a roadmap task |
| MaturityReport.ListedTasksByControlStatus | src/components/nis2/MaturityReport.jsx:76-77 | high tasks come from non-compliant controls, medium from partial or unassessed ones |
| MaturityReport.GapsToAddressCountsOpenControls | src/components/nis2/MaturityReport.jsx:139 | the gap figure is the number of controls not compliant |
| MaturityReport.FamilyBreakdown | src/components/nis2/MaturityReport.jsx:191-200 | a well-formed dictionary (the partition is FamilyBreakdownPartition) |
| MaturityReport.CompliantCount | src/components/nis2/MaturityReport.jsx:203 | at most the group size |
| MaturityReport.FamilyBreakdownPartition | src/components/nis2/MaturityReport.jsx:191-200 | the grouping partitions the statuses by family, in order, no empty group |
| MaturityReport.KnownControlFamily | src/components/nis2/MaturityReport.jsx:193-194 | a designation control's status is listed under that control's family, or 'Unknown' when the family is empty |
| MaturityReport.UnlistedControlFamily | src/components/nis2/MaturityReport.jsx:193-194 | a status of a control outside the designation is listed under 'Unknown' |
| MaturityReport.FamilyFigures | src/components/nis2/MaturityReport.jsx:202-203 | compliant count at most the group; family score at most 100 |
| MaturityReport.StatusScoresCapped | src/contexts/NIS2Context.jsx:341-358 | every calculated control score is at most 100 |
| ComplianceDashboard.ControlsByFamily | src/components/nis2/ComplianceDashboard.jsx:72-79 | a well-formed dictionary (the partition is ControlsByFamilyPartition) |
| ComplianceDashboard.GapPreview | src/components/nis2/ComplianceDashboard.jsx:245-250 | the first two reasons, and the count of the rest when more than two |
| ComplianceDashboard.ControlsByFamilyPartition | src/components/nis2/ComplianceDashboard.jsx:72-79 | the grouping partitions the controls by family, in order, no empty group |
| ComplianceDashboard.MissingStatusDefaults | src/components/nis2/ComplianceDashboard.jsx:189-190 | no status: drawn not assessed with score 0; else a status of its id |
| ComplianceDashboard.EveryControlHasStatus | src/components/nis2/ComplianceDashboard.jsx:189-190 | from the same state every applicable control finds its status |
| ComplianceDashboard.FamilyScoreAtMostHundred | src/components/nis2/ComplianceDashboard.jsx:163-166 | the family score is at most 100 |
| RiskContext.CalculateRiskScore | src/contexts/RiskContext.jsx:138-140 | between 1 and 25 on the 1–5 scales; 0 when either factor is 0 |
| RiskContext.ControlRisks | src/contexts/RiskContext.jsx:107-132 | one risk per gap of a control not compliant, none otherwise |
| RiskContext.IdentifyRisksFromCompliance | src/contexts/RiskContext.jsx:102-136 | nothing without a result; else the loops give the identified risks of the specification |
| RiskContext.IdentifiedRisksCount | src/contexts/RiskContext.jsx:107-132 | one risk per gap of every control not compliant |
| RiskContext.IdentifiedRisksFields | src/contexts/RiskContext.jsx:110-129 | k-th id, score 3 × 3, status identified, and the gap's control, requirement and reason |
| RiskContext.AllCompliantNoRisks | src/contexts/RiskContext.jsx:107-132 | every control compliant gives no risk |
| RiskContext.NewRisk | src/contexts/RiskContext.jsx:143-162 | the caller's fields with status 'identified' forced |
| RiskContext.ApplyRiskUpdate | src/contexts/RiskContext.jsx:164-176 | given fields replaced, others and the id kept, updatedAt set |
| RiskContext.ApplyTreatmentUpdate | src/contexts/RiskContext.jsx:216-228 | given fields replaced, others and the id kept, updatedAt set |
| RiskContext.RiskPriorityIsTotalPreorder | src/contexts/RiskContext.jsx:249-264 | the prioritisation comparator is a total preorder |
| RiskContext.TreatmentsOf | src/contexts/RiskContext.jsx:235-237 | exactly the treatments of the risk, in store order |
| RiskContext.RiskStore.constructor | src/contexts/RiskContext.jsx:76-77 | no risks, no treatments |
| RiskContext.RiskStore.AddRisk | src/contexts/RiskContext.jsx:143-162 | the new risk stored under its id; treatments unchanged |
| RiskContext.RiskStore.UpdateRisk | src/contexts/RiskContext.jsx:164-176 | merges the update into that risk only; an absent id changes nothing |
| RiskContext.RiskStore.DeleteRisk | src/contexts/RiskContext.jsx:178-187 | removes that risk only; treatments stay |
| RiskContext.RiskStore.AddTreatment | src/contexts/RiskContext.jsx:189-214 | stores a planned treatment with the caller's fields; an existing risk gets the updateRisk merge of status treatment_planned and the treatment's residual risk, other fields kept, updatedAt now |
| RiskContext.RiskStore.UpdateTreatment | src/contexts/RiskContext.jsx:216-228 | merges the update into that treatment only; an absent id changes nothing |
| RiskContext.RiskStore.RisksByCustomer | src/contexts/RiskContext.jsx:230-232 | exactly the customer's risks, in order |
| RiskContext.RiskStore.TreatmentsByRisk | src/contexts/RiskContext.jsx:235-237 | exactly the risk's treatments, in order |
| RiskContext.RiskStore.RiskRegister | src/contexts/RiskContext.jsx:240-246 | each of the customer's risks with its treatments, in order |
| RiskContext.RiskStore.PrioritizedOrder | src/contexts/RiskContext.jsx:249-264 | a permutation of the register, by score, then identified first, then newest |
| ProjectContext.ComplianceTasks | src/contexts/ProjectContext.jsx:103-121 | one task per roadmap task, the k-th with the k-th id |
| ProjectContext.EntryTasks | src/contexts/ProjectContext.jsx:124-146 | one task per treatment of the risk |
| ProjectContext.PutAllFresh | src/contexts/ProjectContext.jsx:148-151 | storing tasks with distinct new ids appends them |
| ProjectContext.PutComplianceTasks | src/contexts/ProjectContext.jsx:103-121 | the first loop stores the roadmap tasks' tasks |
| ProjectContext.PutEntryTasks | src/contexts/ProjectContext.jsx:124-146 | the inner loop stores one risk's treatment tasks |
| ProjectContext.GeneratedTasksShape | src/contexts/ProjectContext.jsx:97-155 | one todo task per roadmap task with its title, priority and control, then one high-priority todo task per treatment, carrying its effort, role and due date |
| ProjectContext.NewTask | src/contexts/ProjectContext.jsx:158-177 | the caller's fields with status todo and progress 0 |
| ProjectContext.ApplyTaskUpdate | src/contexts/ProjectContext.jsx:180-191 | given fields replaced, others and the id kept, updatedAt set |
| ProjectContext.RemoveWhere | src/contexts/ProjectContext.jsx:202-220 | the loop keeps exactly the entries not dropped, with their values, and the kept keys in their original order |
| ProjectContext.CreateTasks | src/contexts/ProjectContext.jsx:97-155 | the loops collect the generated tasks of the specification |
| ProjectContext.ProjectStore.constructor | src/contexts/ProjectContext.jsx:68-70 | no tasks, comments or dependencies |
| ProjectContext.ProjectStore.GenerateTasks | src/contexts/ProjectContext.jsx:97-155 | the created tasks are stored and returned; nothing without a roadmap |
| ProjectContext.ProjectStore.AddTask | src/contexts/ProjectContext.jsx:158-177 | the new task stored under its id |
| ProjectContext.ProjectStore.UpdateTask | src/contexts/ProjectContext.jsx:180-191 | merges the update into that task only |
| ProjectContext.ProjectStore.DeleteTask | src/contexts/ProjectContext.jsx:194-223 | removes the task, its comments and every dependency from or on it; the remaining keys keep their order |
| ProjectContext.ProjectStore.AddComment | src/contexts/ProjectContext.jsx:226-243 | the comment stored under its id |
| ProjectContext.ProjectStore.AddDependency | src/contexts/ProjectContext.jsx:246-262 | the dependency stored under its id |
| ProjectContext.ProjectStore.RemoveDependency | src/contexts/ProjectContext.jsx:265-273 | that dependency removed only |
| ProjectContext.ProjectStore.TasksByCustomer | src/contexts/ProjectContext.jsx:276-278 | exactly the customer's tasks, in order |
| ProjectContext.ProjectStore.TaskDependencies | src/contexts/ProjectContext.jsx:281-285 | exactly the dependencies from or on the task |
| ProjectContext.ProjectStore.TaskComments | src/contexts/ProjectContext.jsx:288-292 | exactly the task's comments, oldest first |
| ProjectContext.ProjectStore.CalculateCompletion | src/contexts/ProjectContext.jsx:295-301 | the percentage of the customer's tasks that are done, rounded half up (Percent); 0 without tasks; at most 100 |
| ProjectContext.GeneratedTasksFresh | src/contexts/ProjectContext.jsx:97-155 | with fresh distinct ids the created tasks are appended to the store |
| AnalyticsContext.WithWidget | src/contexts/AnalyticsContext.jsx:88-108 | the widget appended, other fields kept |
| AnalyticsContext.ImprovementIsSumOfSteps | src/contexts/AnalyticsContext.jsx:130-132 | the improvement is the sum of the steps between points |
| AnalyticsContext.ComplianceHistoryWindow | src/contexts/AnalyticsContext.jsx:113-120 | exactly the customer's in-window compliance records, oldest first |
| AnalyticsContext.CalculatePercentiles | src/contexts/AnalyticsContext.jsx:180-187 | none for no values; else values at 25%, 50% and 75% of the sorted order |
| AnalyticsContext.PercentilesOrdered | src/contexts/AnalyticsContext.jsx:180-187 | the quartiles are input values with p25 <= p50 <= p75 |
| AnalyticsContext.BenchmarksCases | src/contexts/AnalyticsContext.jsx:151-177 | none iff no record matches; else sample size and averages over exactly the matching records |
| AnalyticsContext.AnalyticsStore.constructor | src/contexts/AnalyticsContext.jsx:47-60 | no dashboards, the stored records |
| AnalyticsContext.AnalyticsStore.CreateDashboard | src/contexts/AnalyticsContext.jsx:71-86 | a dashboard without widgets under the user-and-time id |
| AnalyticsContext.AnalyticsStore.AddWidget | src/contexts/AnalyticsContext.jsx:88-108 | one widget appended to that dashboard; unknown dashboard: nothing changes |
| AnalyticsContext.AnalyticsStore.DashboardsOf | src/contexts/AnalyticsContext.jsx:196 | exactly the user's dashboards |
| AnalyticsContext.AnalyticsStore.AnalyzeTrends | src/contexts/AnalyticsContext.jsx:111-148 | the trend from the history, the compliance score and the stores |
| AnalyticsContext.AnalyticsStore.AnalyzeTrendsHistory | src/contexts/AnalyticsContext.jsx:113-132 | the trend's history is the window; its improvement the sum of the steps |
| AIInsightsContext.LastContained | src/contexts/AIInsightsContext.jsx:139-143 | the last key contained in the query; none iff no key is |
| AIInsightsContext.ParseNaturalLanguageQuery | src/contexts/AIInsightsContext.jsx:121-151 | later matching checks overwrite earlier ones |
| AIInsightsContext.CacheKey | src/contexts/AIInsightsContext.jsx:99 | the key starts with the normalised query |
| AIInsightsContext.Normalize | src/contexts/AIInsightsContext.jsx:96 | no upper-case letter, no white space at either end |
| AIInsightsContext.InsightsStore.constructor | src/contexts/AIInsightsContext.jsx:27-44 | the stored cache |
| AIInsightsContext.InsightsStore.ProcessQuery | src/contexts/AIInsightsContext.jsx:94-118 | a cached response unchanged; else the answer cached under its key |
| AIInsightsContext.Variations | src/contexts/AIInsightsContext.jsx:191-201 | at most one per neighbouring pair; none for fewer than two points |
| AIInsightsContext.CalculateDataConsistency | src/contexts/AIInsightsContext.jsx:191-201 | 1/2 for fewer than two points; else one minus the share of large changes, in (0, 1] |
| AIInsightsContext.DataConsistency | src/contexts/AIInsightsContext.jsx:191-201 | in (0, 1] |
| AIInsightsContext.PredictionConfidence | src/contexts/AIInsightsContext.jsx:183-189 | between 0 and 0.95; 0 without points |
| AIInsightsContext.SteadyHistoryConsistent | src/contexts/AIInsightsContext.jsx:191-201 | a history without a change above 10 has consistency 1 |
| DatabaseContext.WithoutPassword | src/contexts/DatabaseContext.jsx:105-106 | every field but the password |
| DatabaseContext.DefaultAdmin | src/contexts/DatabaseContext.jsx:35-45 | an active super-admin with the fixed email, never logged in |
| DatabaseContext.CreateUserError | src/contexts/DatabaseContext.jsx:77-84 | missing fields first, then a taken email |
| DatabaseContext.NewUser | src/contexts/DatabaseContext.jsx:86-92 | the caller's fields, active, never logged in |
| DatabaseContext.CreateUserKeepsEmailsUnique | src/contexts/DatabaseContext.jsx:77-94 | a successful creation keeps emails unique |
| DatabaseContext.MergeUser | src/contexts/DatabaseContext.jsx:111 | given fields replaced, the others kept |
| DatabaseContext.UpdatedUsers | src/contexts/DatabaseContext.jsx:109-121 | same length; users with that id merged |
| DatabaseContext.UpdatedUsersOnlyThatId | src/contexts/DatabaseContext.jsx:109-121 | only users with that id change; order and ids kept |
| DatabaseContext.RemainingUsers | src/contexts/DatabaseContext.jsx:123-133 | exactly the users with another id, in order |
| DatabaseContext.DeleteCounts | src/contexts/DatabaseContext.jsx:123-133 | remaining plus removed make up the whole |
| DatabaseContext.FindUserByEmail | src/contexts/DatabaseContext.jsx:135-137 | the first user with that email, none iff there is none |
| DatabaseContext.FindUserById | src/contexts/DatabaseContext.jsx:139-141 | the first user with that id, none iff there is none |
| DatabaseContext.FindByEmailUnique | src/contexts/DatabaseContext.jsx:135-137 | with unique emails the found user is the only one |
| DatabaseContext.UsersByRole | src/contexts/DatabaseContext.jsx:178-184 | exactly the users passing both filters, in order; an empty role and reseller id keep every user |
| DatabaseContext.CompaniesByReseller | src/contexts/DatabaseContext.jsx:186-188 | exactly the reseller's companies, in order |
| DatabaseContext.PublicUsers | src/contexts/DatabaseContext.jsx:191-202 | every user without the password |
| DatabaseContext.MergeCompany | src/contexts/DatabaseContext.jsx:163-175 | given fields replaced, the id kept |
| DatabaseContext.Database.Init | src/contexts/DatabaseContext.jsx:23-46 | only the default super-admin |
| DatabaseContext.Database.Load | src/contexts/DatabaseContext.jsx:23-34 | the stored users and companies |
| DatabaseContext.Database.CreateUser | src/contexts/DatabaseContext.jsx:75-107 | the first failing check, or the new user appended and returned without password |
| DatabaseContext.Database.UpdateUser | src/contexts/DatabaseContext.jsx:109-121 | the users merged by id; companies unchanged |
| DatabaseContext.Database.DeleteUser | src/contexts/DatabaseContext.jsx:123-133 | the users with that id removed |
| DatabaseContext.Database.CreateCompany | src/contexts/DatabaseContext.jsx:144-161 | the company appended with a new id |
| DatabaseContext.Database.UpdateCompany | src/contexts/DatabaseContext.jsx:163-175 | the companies merged by id |
| AuthContext.LoginCheck | src/contexts/AuthContext.jsx:47-59 | unknown email, then deactivated, then wrong password; success only for the active user with that password |
| AuthContext.DeactivatedBeforePassword | src/contexts/AuthContext.jsx:53-56 | a deactivated account gets its message whatever the password |
| AuthContext.LoginSucceedsIff | src/contexts/AuthContext.jsx:47-59 | with unique emails, success iff an active user has that email and password |
| AuthContext.SessionToken | src/contexts/AuthContext.jsx:67-71 | id, email and role only |
| AuthContext.RestoredUser | src/contexts/AuthContext.jsx:27-34 | only an existing active user with the cookie's id is restored |
| AuthContext.Session.constructor | src/contexts/AuthContext.jsx:17-18 | no user, loading |
| AuthContext.Session.InitializeAuth | src/contexts/AuthContext.jsx:21-44 | the restored user, or the user as it was when nobody is restored; a cookie restoring nobody is dropped; loading ends |
| AuthContext.AuthEffect | src/contexts/AuthContext.jsx:21-44 | one run of the session effect: the restored user, else the prior user unchanged; the cookie kept exactly when it restores someone; loading over |
| AuthContext.RerunKeepsSignedInUser | src/contexts/AuthContext.jsx:21-44 | when the signed-in user is deactivated or deleted, the re-run effect drops the cookie but leaves that user signed in |
| AuthContext.StartupDropsSession | src/App.jsx:15-16 | the effect runs first against the database's empty user list, so a cookie of an active stored user is dropped and the reload signs them out |
| AuthContext.AuthEffectOnceLoaded | src/contexts/AuthContext.jsx:21-44 | the intended effect: unchanged state before the users load, one run of the session effect after |
| AuthContext.StartupRestoresSession | src/contexts/AuthContext.jsx:21-44 | with the waiting effect a reload restores exactly the cookie's stored active user and keeps the cookie exactly then |
| AuthContext.Session.Login | src/contexts/AuthContext.jsx:46-85 | failure changes nothing; success records the login time, sets cookie and user |
| AuthContext.Session.Logout | src/contexts/AuthContext.jsx:87-90 | no user, no cookie |
| ProtectedRoute.GuardCases | src/components/auth/ProtectedRoute.jsx:9-21 | spinner while loading; children iff a user with an allowed role or no roles required; else login |
| ProtectedRoute.NoRolesAdmitsAnyUser | src/components/auth/ProtectedRoute.jsx:17-21 | no required roles admits any signed-in user |
| CreateUserModal.InitialForm | src/components/superadmin/CreateUserModal.jsx:6-17 | empty fields, role customer |
| CreateUserModal.Resellers | src/components/superadmin/CreateUserModal.jsx:21 | exactly the resellers |
| CreateUserModal.ValidationOrder | src/components/superadmin/CreateUserModal.jsx:30-54 | each message iff its check fails and the earlier pass |
| CreateUserModal.Payload | src/components/superadmin/CreateUserModal.jsx:57-71 | reseller only for a customer with one chosen; company fields for customers only |
| CreateUserModal.ValidFormIsCreated | src/components/superadmin/CreateUserModal.jsx:30-73 | a form passing the checks with a role is accepted by the database |
| CreateUserModal.Modal.constructor | src/components/superadmin/CreateUserModal.jsx:6-19 | the initial form, no error |
| CreateUserModal.Modal.HandleSubmit | src/components/superadmin/CreateUserModal.jsx:23-81 | a failing check or refusal leaves its message and the users; success closes the form |
| SecurityContext.RoleId | src/contexts/SecurityContext.jsx:110 | organisation, '_' and the lower-cased role name |
| SecurityContext.RoleIdsCanCollide | src/contexts/SecurityContext.jsx:110 | two organisations' roles can share an id |
| SecurityContext.PermittedIff | src/contexts/SecurityContext.jsx:161-169 | a permission iff an assigned role lists it |
| SecurityContext.NewRole | src/contexts/SecurityContext.jsx:109-122 | the role with no one assigned |
| SecurityContext.WithAssignment | src/contexts/SecurityContext.jsx:124-133 | the user appended, earlier entries kept |
| SecurityContext.AssignmentGrants | src/contexts/SecurityContext.jsx:124-133 | an assignment grants the role's permissions |
| SecurityContext.AssignmentKeepsPermissions | src/contexts/SecurityContext.jsx:124-133 | an assignment takes no permission away |
| SecurityContext.RecreateRevokes | src/contexts/SecurityContext.jsx:109-122 | re-creating a role drops its assigned users |
| SecurityContext.SecurityStore.constructor | src/contexts/SecurityContext.jsx:43-60 | the stored security data |
| SecurityContext.SecurityStore.SetupMfa | src/contexts/SecurityContext.jsx:67-82 | a pending, not enabled record |
| SecurityContext.SecurityStore.VerifyMfa | src/contexts/SecurityContext.jsx:84-106 | false without a record or secret; a valid code enables MFA |
| SecurityContext.SecurityStore.CreateCustomRole | src/contexts/SecurityContext.jsx:109-122 | the role stored under its id, replacing any |
| SecurityContext.SecurityStore.AssignCustomRole | src/contexts/SecurityContext.jsx:124-133 | the user appended to an existing role; unknown role: false, nothing changes |
| SecurityContext.SecurityStore.LogAuditEvent | src/contexts/SecurityContext.jsx:136-146 | the event with generated id and timestamp, its own fields first, put first |
| SecurityContext.SecurityStore.AuditLogs | src/contexts/SecurityContext.jsx:185 | the log |
| KnowledgeBaseContext.MatchesSearchIff | src/contexts/KnowledgeBaseContext.jsx:136-150 | a match iff a text contains the query and every given filter holds |
| KnowledgeBaseContext.FiltersNarrow | src/contexts/KnowledgeBaseContext.jsx:136-150 | dropping a filter keeps every match |
| KnowledgeBaseContext.EmptyQueryMatchesTextItems | src/contexts/KnowledgeBaseContext.jsx:137-142 | the empty query matches exactly the items with a text |
| KnowledgeBaseContext.SearchIn | src/contexts/KnowledgeBaseContext.jsx:117-130 | exactly the matching items, in order |
| KnowledgeBaseContext.RelatedIn | src/contexts/KnowledgeBaseContext.jsx:163-182 | exactly the related items other than the item itself, in order |
| KnowledgeBaseContext.KnowledgeBase.constructor | src/contexts/KnowledgeBaseContext.jsx:24-43 | the stored collections |
| KnowledgeBaseContext.KnowledgeBase.Add | src/contexts/KnowledgeBaseContext.jsx:50-111 | stored under the kind's prefix and the time; other collections unchanged |
| KnowledgeBaseContext.KnowledgeBase.Search | src/contexts/KnowledgeBaseContext.jsx:114-133 | each collection's matches for the lower-cased query |
| KnowledgeBaseContext.KnowledgeBase.Lookup | src/contexts/KnowledgeBaseContext.jsx:154-159 | found iff the kind is known and the id stored |
| KnowledgeBaseContext.KnowledgeBase.GetRelatedContent | src/contexts/KnowledgeBaseContext.jsx:153-185 | null iff unknown; else related articles, guides and templates, never the item itself |
| RiskManagement.FilteredRisks | src/components/customer/RiskManagement.jsx:86-91 | exactly the shown risks, in order |
| RiskManagement.EmptySearchShowsAll | src/components/customer/RiskManagement.jsx:86-91 | empty search and 'all' list every risk |
| RiskManagement.Stats | src/components/customer/RiskManagement.jsx:111-116 | high at most total; in progress plus resolved at most total |
| RiskManagement.SampleStats | src/components/customer/RiskManagement.jsx:13-66 | the listed risks give 4, 2, 1, 1 |
| RiskManagement.EmptyStateHint | src/components/customer/RiskManagement.jsx:233 | the hint depends only on whether a term was typed |
| AuditLogs.FilteredLogs | src/components/superadmin/AuditLogs.jsx:90-96 | exactly the shown entries, in order |
| AuditLogs.EmptySearchShowsAll | src/components/superadmin/AuditLogs.jsx:90-96 | empty search and 'all' list every entry |
| AuditLogs.SeverityLabel | src/components/superadmin/AuditLogs.jsx:212 | the first letter upper-cased, same length |
| AuditLogs.Stats | src/components/superadmin/AuditLogs.jsx:225-228 | each count at most the total |
| AuditLogs.FailedCountIsCaseSensitive | src/components/superadmin/AuditLogs.jsx:227 | 'failed login' is not counted |
| CustomerManagement.MyCustomers | src/components/reseller/CustomerManagement.jsx:15 | exactly the customers of the signed-in reseller; all without a user id |
| CustomerManagement.FilteredCustomers | src/components/reseller/CustomerManagement.jsx:17-21 | exactly the shown customers, in order |
| CustomerManagement.MissingCompanyNameIgnored | src/components/reseller/CustomerManagement.jsx:17-21 | a customer without a company is still found by email or name |
| CustomerManagement.EmptySearchShowsAll | src/components/reseller/CustomerManagement.jsx:17-21 | the empty term shows all the reseller's customers |
| ProjectManagement.ColumnProjects | src/components/customer/ProjectManagement.jsx:165-166 | exactly the projects of that lower-cased status, in order |
| ProjectManagement.AtMostOneColumn | src/components/customer/ProjectManagement.jsx:97-102 | a project is on at most one column |
| ProjectManagement.OtherStatusOnNoColumn | src/components/customer/ProjectManagement.jsx:97-102 | another status is on no column |
| ProjectManagement.Stats | src/components/customer/ProjectManagement.jsx:139-144 | in progress plus completed at most total; overdue 0 |
| ProjectManagement.TaskCounter | src/components/customer/ProjectManagement.jsx:208 | completed at most total, equal iff all completed |

## Left out

- Loading from and saving to `localStorage`, and every effect that
  only does so, are left out. Each store's constructor takes the loaded
  state, or the empty state where nothing is stored.
- `uuidv4()`, `Date.now()` and `new Date()` are parameters. Invalid
  dates are not modelled.
- Rendering, styling, icons and the chart widgets are left out.
- Floating point is left out: ratios are exact fractions, and
  `Math.round` is applied to exact values.
- The base64 encoding of the session cookie is left out; the cookie is
  the payload it decodes to, or a malformed value.
- `otplib`: the code check is a parameter of `VerifyMfa`, and
  `authenticator.keyuri` (the `otpauthUrl` of `setupMFA`) is left out.
- `CryptoJS`: `encryptData` and `decryptData` are left out.
- `generatePredictiveInsights` and `getLatestPrediction` are left out,
  and so is the response that `processQuery` builds. The helpers they
  call are not defined in the source, so the response is a parameter of
  `ProcessQuery`.
- Nis2Scoring.Analysis: the constant `confidence: 0.85` that
  `analyzeResponse` returns is left out. The `confidence` of a
  `processQuery` response comes from `calculateResponseConfidence`, which
  the source does not define; it is part of the response parameter.
- Text.Lower and Text.Trim fold case and strip white space for ASCII
  only, where `toLowerCase` and `trim` follow Unicode; `|s|` counts
  characters, where `String.length` counts UTF-16 code units. Every
  member built on them inherits this: Nis2Scoring.RequirementWords,
  Nis2Scoring.MatchedWords, KnowledgeBaseContext.KnowledgeBase.Search,
  RiskManagement.FilteredRisks, AuditLogs.FilteredLogs,
  CustomerManagement.FilteredCustomers, ProjectManagement.ColumnProjects,
  AIInsightsContext.Normalize, AIInsightsContext.CacheKey,
  SecurityContext.RoleId, the blank-answer test of
  AssessmentInterface.AssessmentSession.HandleResponse, and the
  password-length check of CreateUserModal.Validate.
- RiskContext.TreatmentData: `addTreatment` spreads whatever object the
  caller passes; the model carries the fields the application uses
  (strategy, description, residual risk, effort, role, due date). Other
  fields, and fields named `id` or `riskId` that the spread would let
  override the generated ones, are not modelled.
- RiskContext.RiskStore.UpdateRisk: for an absent id the source stores
  a fragment holding only the update; the model leaves the store
  unchanged. RiskContext.RiskStore.UpdateTreatment,
  ProjectContext.ProjectStore.UpdateTask and the risk update inside
  RiskContext.RiskStore.AddTreatment do the same.
- Nis2Store.Nis2Store.UpdateAssessmentResponse: for an absent assessment
  id the source's state update reads the responses of `undefined` and
  throws; the model leaves the state unchanged.
- AssessmentInterface.AssessmentSession.HandleResponse: the simulated
  analysis delays (`setTimeout` of 1.5 s and 2 s) are left out, as is
  the `isAnalyzing` flag they drive; the analysis and the advance happen
  in one step.
- `handleFileUpload` (browser `File` objects, then `submitEvidence` and
  a file response) is left out; Nis2Store.Nis2Store.SubmitEvidence and
  HandleResponse model the two calls it makes.
- AnalyticsContext.AnalyticsStore.AddWidget: for an unknown dashboard
  the source throws inside the state update; the model leaves the state
  unchanged.
- SecurityContext.SecurityStore.AssignCustomRole: for an unknown role
  the source throws; the model returns false and changes nothing.
- Nis2Compliance.AggregateFigures: with no applicable controls the
  source's overall score is `NaN` (0 / 0). The model has no score
  (`None`) and maturity 'basic', following the code; a score of 0 would
  be wrong.
- AuthContext.LoginCheck: there is no bypass password in the code, so
  the model has none.

## Findings

| source | as written | input that shows it | evidently intended | confidence | as-written member | corrected member |
|---|---|---|---|---|---|---|
| src/contexts/AuthContext.jsx:21-44 | the session effect of the authentication provider, nested in the database provider (src/App.jsx:15-16), runs before the database's effect that loads the users (src/contexts/DatabaseContext.jsx:16, 23-57), so its first run sees no users and removes the cookie | a reload with the cookie of an active stored user: the first run drops the cookie, the second finds none, nobody is signed in | the session is restored once the users are loaded, as AuthContext.Session.InitializeAuth does against the loaded users | not executed | AuthContext.StartupDropsSession | AuthContext.StartupRestoresSession |
| src/components/nis2/AIAssessmentInterface.jsx:56-58 | completed questions = control index × the current control's question count + question index | a control with no requirements (2 questions), then one with ten (12 questions), on the last question of the second: 23 of 14 done, progress 164%; latent with the shipped catalog (src/contexts/NIS2Context.jsx:16-94), where every control has four requirements and the formula agrees (AssessmentInterface.UniformControlsAgree) | the questions before the cursor: 13 of 14, 93% | not executed | AssessmentInterface.ProgressOverflowsWithUnevenControls | AssessmentInterface.AdvanceCompletesOne |
