/** The four-step designation wizard (`CustomerDesignationWizard`): the
    form, its field updates, the per-step validity check that enables the
    Next button, the step counter, and completion, which stores the
    designation for the signed-in customer. */
module DesignationWizard {
  import opened Common
  import opened Nis2Designation
  import opened Nis2Compliance
  import opened Nis2Store

  /** `steps.length`. */
  const STEP_COUNT: nat := 4

  /** The form as the wizard starts it. */
  function InitialForm(): (f: FormData)
    ensures f.country == "" && f.industry == "" && f.companySize == "" && f.hasOT.None?
    ensures f.otDetails.types == []
  {
    FormData("", "", "", "", "", None, OtDetails([], "", "", ""), "", "")
  }

  /** The form fields `updateFormData` is called with. */
  datatype FormField = Country | Industry | CompanySize | EmployeeCount | AnnualTurnover
                     | HasOtField | ServicesCriticality | Interconnectedness

  /** A field's value: text, the OT answer, or the unanswered OT question. */
  datatype FieldValue = Text(s: string) | Flag(b: bool) | Unset

  /** Reading one field of the form. */
  function FieldOf(form: FormData, f: FormField): FieldValue
  {
    match f
    case Country => Text(form.country)
    case Industry => Text(form.industry)
    case CompanySize => Text(form.companySize)
    case EmployeeCount => Text(form.employeeCount)
    case AnnualTurnover => Text(form.annualTurnover)
    case HasOtField => if form.hasOT.Some? then Flag(form.hasOT.value) else Unset
    case ServicesCriticality => Text(form.servicesCriticality)
    case Interconnectedness => Text(form.interconnectedness)
  }

  /** A value of the kind the field holds (the wizard passes text to text
      fields and `true`/`false` to `hasOT`). */
  predicate FitsField(f: FormField, v: FieldValue)
  {
    if f == HasOtField then v.Flag? else v.Text?
  }

  /** `updateFormData(field, value)`: `{ ...prev, [field]: value }`. */
  function UpdateFormData(form: FormData, f: FormField, v: FieldValue): FormData
    requires FitsField(f, v)
  {
    match f
    case Country => form.(country := v.s)
    case Industry => form.(industry := v.s)
    case CompanySize => form.(companySize := v.s)
    case EmployeeCount => form.(employeeCount := v.s)
    case AnnualTurnover => form.(annualTurnover := v.s)
    case HasOtField => form.(hasOT := Some(v.b))
    case ServicesCriticality => form.(servicesCriticality := v.s)
    case Interconnectedness => form.(interconnectedness := v.s)
  }

  /** Updating a field sets that field and leaves every other field, and
      the OT details, as they were. */
  lemma UpdateFormDataOneField(form: FormData, f: FormField, v: FieldValue)
    requires FitsField(f, v)
    ensures FieldOf(UpdateFormData(form, f, v), f) == v
    ensures forall g :: g != f ==> FieldOf(UpdateFormData(form, f, v), g) == FieldOf(form, g)
    ensures UpdateFormData(form, f, v).otDetails == form.otDetails
  {
  }

  /** The OT detail fields `updateOTDetails` is called with. */
  datatype OtField = Types | CriticalSystems | NetworkSegmentation | OtSecurityMeasures

  datatype OtValue = TypeList(types: seq<string>) | OtText(s: string)

  function OtFieldOf(d: OtDetails, f: OtField): OtValue
  {
    match f
    case Types => TypeList(d.types)
    case CriticalSystems => OtText(d.criticalSystems)
    case NetworkSegmentation => OtText(d.networkSegmentation)
    case OtSecurityMeasures => OtText(d.otSecurityMeasures)
  }

  /** `updateOTDetails(field, value)`: a new `otDetails` with one field
      replaced. */
  function UpdateOtDetails(form: FormData, f: OtField, v: OtValue): FormData
    requires (f == Types) == v.TypeList?
  {
    var d := form.otDetails;
    form.(otDetails := match f
      case Types => d.(types := v.types)
      case CriticalSystems => d.(criticalSystems := v.s)
      case NetworkSegmentation => d.(networkSegmentation := v.s)
      case OtSecurityMeasures => d.(otSecurityMeasures := v.s))
  }

  lemma UpdateOtDetailsOneField(form: FormData, f: OtField, v: OtValue)
    requires (f == Types) == v.TypeList?
    ensures OtFieldOf(UpdateOtDetails(form, f, v).otDetails, f) == v
    ensures forall g :: g != f ==> OtFieldOf(UpdateOtDetails(form, f, v).otDetails, g) == OtFieldOf(form.otDetails, g)
    ensures forall g :: FieldOf(UpdateOtDetails(form, f, v), g) == FieldOf(form, g)
  {
  }

  /** The OT-type checkbox: checking appends the type, unchecking removes
      every occurrence of it. */
  function ToggleOtType(types: seq<string>, t: string, checked: bool): (r: seq<string>)
    ensures checked ==> r == types + [t]
    ensures !checked ==> t !in r && |r| <= |types|
    ensures !checked ==> forall x :: x != t ==> (x in r <==> x in types)
  {
    if checked then types + [t]
    else
      var r := Filter(types, x => x != t);
      forall x | x != t ensures x in r <==> x in types {
        FilterMember(types, x => x != t, x);
      }
      r
  }

  /** `isStepValid()`. */
  predicate IsStepValid(step: nat, form: FormData)
  {
    match step
    case 0 => form.country != ""
    case 1 => form.industry != "" && form.companySize != ""
    case 2 => form.hasOT.Some? && (form.hasOT == Some(false) || |form.otDetails.types| > 0)
    case 3 => true
    case _ => false
  }

  /** A form that passes the first three steps names a country, an
      industry and a size, answers the OT question, and lists an OT type
      whenever it says it has OT. The last step never blocks. */
  lemma PassedStepsMeanCompleteForm(form: FormData)
    requires IsStepValid(0, form) && IsStepValid(1, form) && IsStepValid(2, form)
    ensures form.country != "" && form.industry != "" && form.companySize != ""
    ensures form.hasOT.Some?
    ensures HasOt(form) ==> |form.otDetails.types| >= 1
    ensures IsStepValid(3, form)
  {
  }

  /** The review step's preliminary label: 'Essential' for a typically
      essential sector, 'Important' for every other industry. */
  function PreviewLabel(form: FormData): (caption: string)
    ensures caption == "Essential" || caption == "Important"
  {
    if TypicallyEssential(form.industry) then "Essential" else "Important"
  }

  /** The preview can disagree with the stored designation: a small
      energy company without OT is previewed 'Essential' but designated
      important, and a manufacturer is previewed 'Important' but
      designated 'other'. */
  lemma PreviewDiffersFromDesignation(form: FormData)
    ensures form.industry == "energy" && form.companySize == "small" && form.hasOT == Some(false) ==>
              PreviewLabel(form) == "Essential" && DetermineDesignation(form) == Important
    ensures form.industry == "manufacturing" ==>
              PreviewLabel(form) == "Important" && DetermineDesignation(form) == Other
    ensures DetermineDesignation(form) == Essential ==> PreviewLabel(form) == "Essential"
  {
  }

  /** The wizard's state. */
  class Wizard {
    const userId: string
    const store: Nis2Store
    var currentStep: nat
    var formData: FormData

    ghost predicate Valid()
      reads this, store
    {
      currentStep < STEP_COUNT && store.Valid()
    }

    constructor(userId: string, store: Nis2Store)
      requires store.Valid()
      ensures Valid() && this.userId == userId && this.store == store
      ensures currentStep == 0 && formData == InitialForm()
    {
      this.userId := userId;
      this.store := store;
      currentStep := 0;
      formData := InitialForm();
    }

    /** A click on Next: ignored while the step is invalid (the button is
        disabled); otherwise the next step, or on the last step
        `handleComplete`, which stores the designation for the user and
        hands it to `onComplete`. */
    method ClickNext(id: string, now: int) returns (completed: Option<Designation>)
      requires Valid()
      modifies this, store
      ensures Valid()
      ensures formData == old(formData)
      ensures !IsStepValid(old(currentStep), formData) ==>
                completed.None? && currentStep == old(currentStep) &&
                store.designations == old(store.designations)
      ensures IsStepValid(old(currentStep), formData) && old(currentStep) < STEP_COUNT - 1 ==>
                completed.None? && currentStep == old(currentStep) + 1 &&
                store.designations == old(store.designations)
      ensures IsStepValid(old(currentStep), formData) && old(currentStep) == STEP_COUNT - 1 ==>
                currentStep == old(currentStep) &&
                completed == Some(NewDesignation(userId, formData, id, now)) &&
                store.designations == old(store.designations).Put(userId, completed.value)
      ensures store.assessments == old(store.assessments) && store.evidence == old(store.evidence)
    {
      completed := None;
      if !IsStepValid(currentStep, formData) {
        return;
      }
      if currentStep < STEP_COUNT - 1 {
        currentStep := currentStep + 1;
      } else {
        var designation := store.CreateCustomerDesignation(userId, formData, id, now);
        completed := Some(designation);
      }
    }

    /** `handlePrevious`: one step back, nothing at the first step. */
    method HandlePrevious()
      requires Valid()
      modifies this
      ensures Valid()
      ensures currentStep == if old(currentStep) > 0 then old(currentStep) - 1 else 0
      ensures formData == old(formData)
    {
      if currentStep > 0 {
        currentStep := currentStep - 1;
      }
    }

    method SetField(f: FormField, v: FieldValue)
      requires Valid() && FitsField(f, v)
      modifies this
      ensures Valid() && currentStep == old(currentStep)
      ensures formData == UpdateFormData(old(formData), f, v)
    {
      formData := UpdateFormData(formData, f, v);
    }

    method SetOtDetail(f: OtField, v: OtValue)
      requires Valid() && (f == Types) == v.TypeList?
      modifies this
      ensures Valid() && currentStep == old(currentStep)
      ensures formData == UpdateOtDetails(old(formData), f, v)
    {
      formData := UpdateOtDetails(formData, f, v);
    }
  }
}
