/** The registration wizard of `StudentRegistrationForm`: the step cursor,
    the draft, the terminal `isSubmitted` flag, and the stored list of
    submitted students that `handleSubmit` appends to. Storage access,
    `Date.now()` and `new Date()` are parameters (`Env`). */
module Registration {
  import opened Common
  import opened Dates
  import opened Form
  import opened Steps

  const TotalSteps: int := 3

  /** One entry of the stored students list: the draft's fields plus `id`,
      `submittedAt` (both the submission time in milliseconds) and
      `profileImageName`. */
  datatype StoredStudent = StoredStudent(
    form: StudentFormData,
    id: int,
    submittedAt: int,
    profileImageName: Option<string>)

  /** The component state: `currentStep`, `formData`, `isSubmitted`. */
  datatype Wizard = Wizard(currentStep: int, formData: StudentFormData, isSubmitted: bool)

  /** What `Date.now()`, `new Date()` and storage give one event. */
  datatype Env = Env(today: Date, now: int, storageOk: bool)

  /** The buttons and inputs the applicant can use. */
  datatype Action =
    | Edit(patch: Patch)
    | NextPressed
    | PreviousPressed
    | SubmitPressed

  /** The new state, the stored list after the event, and the toasts raised. */
  datatype Reaction = Reaction(wizard: Wizard, store: seq<StoredStudent>, notices: seq<Notice>)

  /** What the component renders. */
  datatype View = StepView(step: int) | SuccessView | NothingView

  /** The freshly mounted wizard: step 1, a blank draft, not submitted. */
  function Start(): (w: Wizard)
    ensures w.currentStep == 1 && !w.isSubmitted
    ensures forall f :: Get(w.formData, f) == Blank(f)
  {
    Wizard(1, InitialFormData(), false)
  }

  /** `nextStep`: moves forward by one only while the cursor is below 3. */
  function NextStep(step: int): (r: int)
    ensures step <= r <= step + 1
    ensures r == step + 1 <==> step < TotalSteps
    ensures step <= TotalSteps ==> r <= TotalSteps
  {
    if step < TotalSteps then step + 1 else step
  }

  /** `prevStep`: moves back by one only while the cursor is above 1. */
  function PrevStep(step: int): (r: int)
    ensures step - 1 <= r <= step
    ensures r == step - 1 <==> step > 1
    ensures step >= 1 ==> r >= 1
  {
    if step > 1 then step - 1 else step
  }

  /** The cursor stays in [1, 3] under both moves, and a move back from
      step 2 or 3 is undone by a move forward (and vice versa from 1 or 2). */
  lemma CursorMovesInverse(step: int)
    requires 1 <= step <= TotalSteps
    ensures 1 <= NextStep(step) <= TotalSteps && 1 <= PrevStep(step) <= TotalSteps
    ensures step > 1 ==> NextStep(PrevStep(step)) == step
    ensures step < TotalSteps ==> PrevStep(NextStep(step)) == step
  {
  }

  /** `formData.profileImage?.name || null`: the file's name, or null when
      there is no file or its name is the (falsy) empty string. */
  function ImageName(image: Option<ImageFile>): (r: Option<string>)
    ensures r.Some? <==> image.Some? && image.value.name != ""
    ensures r.Some? ==> r.value == image.value.name
  {
    match image
    case None => None
    case Some(file) => if file.name != "" then Some(file.name) else None
  }

  /** The record `handleSubmit` assembles at time `now`. */
  function Assemble(d: StudentFormData, now: int): (r: StoredStudent)
    ensures r.form == d
    ensures r.id == r.submittedAt == now
    ensures r.profileImageName.Some? <==> d.profileImage.Some? && d.profileImage.value.name != ""
    ensures r.profileImageName.Some? ==> r.profileImageName.value == d.profileImage.value.name
  {
    StoredStudent(d, now, now, ImageName(d.profileImage))
  }

  /** `handleSubmit`: append exactly one assembled record and enter the
      terminal state; if storage throws, nothing is stored and the wizard is
      unchanged. Either way one toast is shown. */
  function Submit(w: Wizard, store: seq<StoredStudent>, now: int, storageOk: bool): (r: Reaction)
    ensures |r.store| == |store| + (if storageOk then 1 else 0)
    ensures r.store[..|store|] == store
    ensures storageOk ==> r.store[|store|].form == w.formData
    ensures storageOk ==> r.store[|store|].id == now && r.store[|store|].submittedAt == now
    ensures storageOk ==> r.store[|store|].profileImageName == ImageName(w.formData.profileImage)
    ensures r.wizard.formData == w.formData && r.wizard.currentStep == w.currentStep
    ensures r.wizard.isSubmitted <==> storageOk || w.isSubmitted
    ensures |r.notices| == 1
    ensures r.notices[0] == RegistrationSuccessful <==> storageOk
    ensures !storageOk ==> r.notices == [SubmissionError]
  {
    if storageOk then
      Reaction(w.(isSubmitted := true), store + [Assemble(w.formData, now)], [RegistrationSuccessful])
    else
      Reaction(w, store, [SubmissionError])
  }

  /** The no-op reaction: nothing changes and nothing is shown. */
  function Unchanged(w: Wizard, store: seq<StoredStudent>): Reaction
  {
    Reaction(w, store, [])
  }

  /** A step's forward button: advance the cursor when the gate opens,
      otherwise keep the state and show the gate's toast. */
  function Advance(w: Wizard, store: seq<StoredStudent>, g: Gate): Reaction
  {
    if g.proceed then Reaction(w.(currentStep := NextStep(w.currentStep)), store, g.notices)
    else Reaction(w, store, g.notices)
  }

  /** One applicant event. Once submitted only the success view is shown, so
      every event is a no-op. An input can only edit the fields of the step on
      screen; a button that the current step does not render does nothing. */
  function Dispatch(w: Wizard, store: seq<StoredStudent>, a: Action, env: Env): (r: Reaction)
    requires a.Edit? ==> WellTyped(a.patch)
    ensures w.isSubmitted ==> r == Reaction(w, store, [])
    ensures r.store == store
         || (r.store == store + [Assemble(w.formData, env.now)]
             && a.SubmitPressed? && env.storageOk && !w.isSubmitted && r.wizard.isSubmitted)
    ensures !a.Edit? ==> r.wizard.formData == w.formData
    ensures a.Edit? ==> r.wizard.currentStep == w.currentStep && r.notices == []
    ensures a.Edit? && !w.isSubmitted && a.patch.Keys <= StepFields(w.currentStep) ==>
      r.wizard.formData == Update(w.formData, a.patch)
    ensures |r.notices| <= 1
    // Submit on step 3 stores the record and locks the wizard exactly when
    // step 3 validates and storage works; either way one toast is shown.
    ensures !w.isSubmitted && a.SubmitPressed? && w.currentStep == TotalSteps ==>
      && (r.wizard.isSubmitted <==> ValidateStepThree(w.formData).Valid? && env.storageOk)
      && (r.store == store + [Assemble(w.formData, env.now)]
          <==> ValidateStepThree(w.formData).Valid? && env.storageOk)
      && |r.notices| == 1
      && (r.notices[0] == RegistrationSuccessful <==> r.wizard.isSubmitted)
    // Next on step 1 or 2 advances exactly when that step validates, without a
    // toast; otherwise the wizard stays as it was and one toast is shown.
    ensures !w.isSubmitted && a.NextPressed? && w.currentStep == 1 ==>
      && (r.wizard.currentStep == 2 <==> ValidateStepOne(w.formData, env.today).Valid?)
      && (ValidateStepOne(w.formData, env.today).Valid? ==>
            r.wizard == w.(currentStep := 2) && r.notices == [])
      && (!ValidateStepOne(w.formData, env.today).Valid? ==> r.wizard == w && |r.notices| == 1)
    // Each failure shows its own toast: the first failing check of the step,
    // or the storage error.
    ensures !w.isSubmitted && a.NextPressed? && w.currentStep == 1
            && !ValidateStepOne(w.formData, env.today).Valid? ==>
      r.notices == [ValidationError(ValidateStepOne(w.formData, env.today).reason)]
    ensures !w.isSubmitted && a.NextPressed? && w.currentStep == 2 && !ValidateStepTwo(w.formData).Valid? ==>
      r.notices == [ValidationError(MissingBloodGroup)]
    ensures !w.isSubmitted && a.SubmitPressed? && w.currentStep == TotalSteps
            && !ValidateStepThree(w.formData).Valid? ==>
      r.notices == [ValidationError(MissingMotherContact)]
    ensures !w.isSubmitted && a.SubmitPressed? && w.currentStep == TotalSteps
            && ValidateStepThree(w.formData).Valid? && !env.storageOk ==>
      r.notices == [SubmissionError]
    // An edit of a field the current step does not render is dropped.
    ensures a.Edit? && !(a.patch.Keys <= StepFields(w.currentStep)) ==> r == Reaction(w, store, [])
    // Only a submission that stores the record sets `isSubmitted`; a Submit
    // never moves the cursor, and a failed one changes nothing.
    ensures r.wizard.isSubmitted <==> w.isSubmitted || r.store != store
    ensures !w.isSubmitted && a.SubmitPressed? ==> r.wizard.currentStep == w.currentStep
    ensures (!w.isSubmitted && a.SubmitPressed? && w.currentStep == TotalSteps
             && !(ValidateStepThree(w.formData).Valid? && env.storageOk)) ==> r.wizard == w
    // A button the current step does not render does nothing.
    ensures a.NextPressed? && w.currentStep !in {1, 2} ==> r == Reaction(w, store, [])
    ensures a.PreviousPressed? && w.currentStep !in {2, 3} ==> r == Reaction(w, store, [])
    ensures a.SubmitPressed? && w.currentStep != TotalSteps ==> r == Reaction(w, store, [])
    ensures !w.isSubmitted && a.NextPressed? && w.currentStep == 2 ==>
      && (r.wizard.currentStep == 3 <==> ValidateStepTwo(w.formData).Valid?)
      && (ValidateStepTwo(w.formData).Valid? ==> r.wizard == w.(currentStep := 3) && r.notices == [])
      && (!ValidateStepTwo(w.formData).Valid? ==> r.wizard == w && |r.notices| == 1)
  {
    if w.isSubmitted then Unchanged(w, store)
    else match a
      case Edit(p) =>
        if p.Keys <= StepFields(w.currentStep) then
          Reaction(w.(formData := Update(w.formData, p)), store, [])
        else Unchanged(w, store)
      case NextPressed =>
        if w.currentStep == 1 then Advance(w, store, StepOneNext(w.formData, env.today))
        else if w.currentStep == 2 then Advance(w, store, StepTwoNext(w.formData))
        else Unchanged(w, store)
      case PreviousPressed =>
        if w.currentStep == 2 || w.currentStep == 3 then
          Reaction(w.(currentStep := PrevStep(w.currentStep)), store, [])
        else Unchanged(w, store)
      case SubmitPressed =>
        if w.currentStep == 3 then
          var g := StepThreeSubmit(w.formData);
          if g.proceed then Submit(w, store, env.now, env.storageOk)
          else Reaction(w, store, g.notices)
        else Unchanged(w, store)
  }

  /** The rendered view: the success message once submitted, else the step. */
  function ViewOf(w: Wizard): (v: View)
    ensures v == SuccessView <==> w.isSubmitted
    ensures v.StepView? <==> !w.isSubmitted && 1 <= w.currentStep <= TotalSteps
    ensures v.StepView? ==> v.step == w.currentStep
  {
    if w.isSubmitted then SuccessView
    else if 1 <= w.currentStep <= TotalSteps then StepView(w.currentStep)
    else NothingView
  }

  /** The draft passes all three step validators. */
  predicate FullyValid(d: StudentFormData, today: Date)
  {
    ValidateStepOne(d, today).Valid? && ValidateStepTwo(d).Valid? && ValidateStepThree(d).Valid?
  }

  /** What reaching a step guarantees about the draft: the cursor is in
      [1, 3], every earlier step validated, and a submitted draft validated
      on all three steps. */
  ghost predicate Consistent(w: Wizard, today: Date)
  {
    && 1 <= w.currentStep <= TotalSteps
    && (w.currentStep >= 2 ==> ValidateStepOne(w.formData, today).Valid?)
    && (w.currentStep >= 3 ==> ValidateStepTwo(w.formData).Valid?)
    && (w.isSubmitted ==> w.currentStep == TotalSteps && FullyValid(w.formData, today))
  }

  lemma StartIsConsistent(today: Date)
    ensures Consistent(Start(), today)
  {
  }

  /** StepOne's verdict survives the passage of time: nobody gets younger. */
  lemma StepOneValidPersists(d: StudentFormData, today: Date, later: Date)
    requires ValidateStepOne(d, today).Valid?
    requires !Before(later, today)
    ensures ValidateStepOne(d, later).Valid?
  {
    var dob := d.dateOfBirth.value;
    assert !Before(today, AddYears(dob, MinimumAge));
  }

  /** An accepted edit keeps the verdicts of the steps already passed. */
  lemma EditKeepsConsistency(w: Wizard, p: Patch, today: Date)
    requires WellTyped(p) && p.Keys <= StepFields(w.currentStep)
    requires Consistent(w, today) && !w.isSubmitted
    ensures Consistent(w.(formData := Update(w.formData, p)), today)
  {
    var d' := Update(w.formData, p);
    if w.currentStep == 2 {
      StepFieldsDisjoint(1, 2);
      UpdateOutsideStepKeepsAgreement(w.formData, p, 1);
      StepOneReadsOwnFields(w.formData, d', today);
    } else if w.currentStep == 3 {
      StepFieldsDisjoint(1, 3);
      StepFieldsDisjoint(2, 3);
      UpdateOutsideStepKeepsAgreement(w.formData, p, 1);
      StepOneReadsOwnFields(w.formData, d', today);
      UpdateOutsideStepKeepsAgreement(w.formData, p, 2);
      StepTwoReadsOwnFields(w.formData, d');
    }
  }

  /** Every event, with a clock that does not run backwards, keeps the wizard
      consistent; so a record is stored only for a draft that passes every
      step, and the stored list only ever grows by that one record. */
  lemma {:induction false} DispatchPreservesConsistency(
    w: Wizard, store: seq<StoredStudent>, a: Action, env: Env, today: Date)
    requires a.Edit? ==> WellTyped(a.patch)
    requires Consistent(w, today)
    requires !Before(env.today, today)
    ensures Consistent(Dispatch(w, store, a, env).wizard, env.today)
    ensures Dispatch(w, store, a, env).store != store ==>
      FullyValid(Dispatch(w, store, a, env).store[|store|].form, env.today)
  {
    if w.currentStep >= 2 {
      StepOneValidPersists(w.formData, today, env.today);
    }
    assert Consistent(w, env.today);
    if w.isSubmitted {
      return;
    }
    match a {
      case Edit(p) =>
        if p.Keys <= StepFields(w.currentStep) {
          EditKeepsConsistency(w, p, env.today);
        }
      case NextPressed =>
      case PreviousPressed =>
      case SubmitPressed =>
    }
  }

  /** Going back from step 3 (or 2) and forward again restores the wizard
      exactly: no entered value is lost and the revalidation passes. */
  lemma RetreatThenAdvance(w: Wizard, store: seq<StoredStudent>, env: Env, today: Date)
    requires Consistent(w, today) && !Before(env.today, today)
    requires !w.isSubmitted && w.currentStep >= 2
    ensures Dispatch(w, store, PreviousPressed, env) == Reaction(w.(currentStep := w.currentStep - 1), store, [])
    ensures Dispatch(Dispatch(w, store, PreviousPressed, env).wizard, store, NextPressed, env)
         == Reaction(w, store, [])
  {
    StepOneValidPersists(w.formData, today, env.today);
  }

  /** Previous on step 2 or 3 moves back one step without validating
      anything and without touching the draft. */
  lemma PreviousNeverValidates(w: Wizard, store: seq<StoredStudent>, env: Env)
    requires !w.isSubmitted && (w.currentStep == 2 || w.currentStep == 3)
    ensures Dispatch(w, store, PreviousPressed, env) == Reaction(w.(currentStep := w.currentStep - 1), store, [])
  {
  }

  /** Submission is terminal: after it, no event changes anything. */
  lemma SubmittedIsTerminal(w: Wizard, store: seq<StoredStudent>, a: Action, env: Env)
    requires a.Edit? ==> WellTyped(a.patch)
    requires w.isSubmitted
    ensures Dispatch(w, store, a, env) == Reaction(w, store, [])
    ensures ViewOf(Dispatch(w, store, a, env).wizard) == SuccessView
  {
  }
}
