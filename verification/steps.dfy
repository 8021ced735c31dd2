/** The three registration steps: which fields each step renders, its
    `validateStep`, and the button handlers that call `onNext`, `onSubmit`
    or `onPrev`. A toast is modelled as a returned notice. */
module Steps {
  import opened Common
  import opened Text
  import opened Dates
  import opened Form

  /** The violation categories a failed validation reports. */
  datatype Violation =
    | MissingRequiredFields
    | MissingDateOfBirth
    | Underage
    | ProfileImageNotPng
    | MissingBloodGroup
    | MissingMotherContact

  /** A toast shown to the applicant. */
  datatype Notice =
    | ValidationError(violation: Violation)
    | RegistrationSuccessful
    | SubmissionError

  /** The outcome of pressing a step's forward button: whether the step's
      callback runs, and the toasts raised. */
  datatype Gate = Gate(proceed: bool, notices: seq<Notice>)

  /** The fields whose inputs step `step` renders; edits can only reach these. */
  function StepFields(step: int): set<Field>
  {
    if step == 1 then {FirstName, LastName, Gender, DateOfBirth, Email, Mobile, ProfileImage}
    else if step == 2 then {BloodGroup, Allergies, Medications}
    else if step == 3 then {MotherName, MotherMobile, MotherOccupation, FatherName, FatherMobile}
    else {}
  }

  /** Every field is rendered by exactly one of the three steps. */
  lemma StepFieldsPartition(f: Field)
    ensures f in StepFields(1) || f in StepFields(2) || f in StepFields(3)
    ensures f in StepFields(1) ==> f !in StepFields(2) && f !in StepFields(3)
    ensures f in StepFields(2) ==> f !in StepFields(3)
  {
  }

  /** Distinct steps render disjoint sets of fields. */
  lemma StepFieldsDisjoint(i: int, j: int)
    requires i != j
    ensures StepFields(i) !! StepFields(j)
  {
    forall f | f in StepFields(i)
      ensures f !in StepFields(j)
    {
      StepFieldsPartition(f);
    }
  }

  /** Every field a step's validator demands is one of the inputs that step
      renders, so the applicant can always fill it in on that step. */
  lemma RequiredFieldsRendered()
    ensures forall f :: f in StepOneRequired ==> f in StepFields(1)
    ensures DateOfBirth in StepFields(1) && ProfileImage in StepFields(1)
    ensures BloodGroup in StepFields(2)
    ensures forall f :: f in StepThreeRequired ==> f in StepFields(3)
  {
  }

  /** `requiredFields.filter(field => !formData[field])`. */
  function MissingFields(d: StudentFormData, fields: seq<Field>): (r: seq<Field>)
    ensures forall f :: f in r <==> f in fields && IsFalsy(Get(d, f))
    ensures |r| <= |fields|
  {
    if |fields| == 0 then []
    else if IsFalsy(Get(d, fields[0])) then [fields[0]] + MissingFields(d, fields[1..])
    else MissingFields(d, fields[1..])
  }

  /** Every listed field holds a truthy value. */
  predicate AllFilled(d: StudentFormData, fields: seq<Field>)
  {
    forall f :: f in fields ==> !IsFalsy(Get(d, f))
  }

  const StepOneRequired: seq<Field> := [FirstName, LastName, Gender, Email, Mobile]
  const StepThreeRequired: seq<Field> := [MotherMobile, MotherOccupation]
  const MinimumAge: int := 18

  /** `today` is on or after the eighteenth anniversary of `dob`. */
  predicate IsAdultOn(dob: Date, today: Date)
  {
    !Before(today, AddYears(dob, MinimumAge))
  }

  /** No image, or one whose lower-cased name ends in ".png". */
  predicate ImageIsPng(image: Option<ImageFile>)
  {
    image.None? || EndsWith(Lower(image.value.name), ".png")
  }

  /** StepOne `validateStep`: required fields, then the date of birth, then
      the age, then the image type; the first failing check alone is reported. */
  function ValidateStepOne(d: StudentFormData, today: Date): (r: Check<Violation>)
    ensures r.Valid? <==>
      AllFilled(d, StepOneRequired) && d.dateOfBirth.Some?
      && IsAdultOn(d.dateOfBirth.value, today) && ImageIsPng(d.profileImage)
    ensures r == Invalid(MissingRequiredFields) <==> !AllFilled(d, StepOneRequired)
    ensures r == Invalid(MissingDateOfBirth) <==>
      AllFilled(d, StepOneRequired) && d.dateOfBirth.None?
    ensures r == Invalid(Underage) <==>
      AllFilled(d, StepOneRequired) && d.dateOfBirth.Some?
      && !IsAdultOn(d.dateOfBirth.value, today)
    ensures r == Invalid(ProfileImageNotPng) <==>
      AllFilled(d, StepOneRequired) && d.dateOfBirth.Some?
      && IsAdultOn(d.dateOfBirth.value, today) && !ImageIsPng(d.profileImage)
  {
    if |MissingFields(d, StepOneRequired)| > 0 then
      assert MissingFields(d, StepOneRequired)[0] in MissingFields(d, StepOneRequired);
      Invalid(MissingRequiredFields)
    else if d.dateOfBirth.None? then Invalid(MissingDateOfBirth)
    else if (AtLeastYearsIff(d.dateOfBirth.value, today, MinimumAge);
             DifferenceInYears(today, d.dateOfBirth.value) < MinimumAge) then Invalid(Underage)
    else if d.profileImage.Some? && !EndsWith(Lower(d.profileImage.value.name), ".png") then
      Invalid(ProfileImageNotPng)
    else Valid
  }

  /** StepTwo `validateStep`: only the blood group is required. */
  function ValidateStepTwo(d: StudentFormData): (r: Check<Violation>)
    ensures r.Valid? <==> !IsFalsy(Get(d, BloodGroup))
    ensures r.Invalid? ==> r.reason == MissingBloodGroup
  {
    if d.bloodGroup == "" then Invalid(MissingBloodGroup) else Valid
  }

  /** StepThree `validateStep`: the mother's mobile and occupation are
      required; one violation covers either or both being missing. */
  function ValidateStepThree(d: StudentFormData): (r: Check<Violation>)
    ensures r.Valid? <==> AllFilled(d, StepThreeRequired)
    ensures r.Invalid? ==> r.reason == MissingMotherContact
  {
    if |MissingFields(d, StepThreeRequired)| > 0 then
      assert MissingFields(d, StepThreeRequired)[0] in MissingFields(d, StepThreeRequired);
      Invalid(MissingMotherContact)
    else Valid
  }

  /** The forward button of a step: the callback runs exactly when validation
      passes, and a failure raises exactly one toast naming its violation. */
  function GateOn(c: Check<Violation>): (g: Gate)
    ensures g.proceed <==> c.Valid?
    ensures c.Valid? ==> g.notices == []
    ensures c.Invalid? ==> g.notices == [ValidationError(c.reason)]
  {
    match c
    case Valid => Gate(true, [])
    case Invalid(v) => Gate(false, [ValidationError(v)])
  }

  /** StepOne `handleNext`. */
  function StepOneNext(d: StudentFormData, today: Date): (g: Gate)
    ensures g.proceed <==> ValidateStepOne(d, today).Valid?
    ensures |g.notices| == if g.proceed then 0 else 1
    ensures !g.proceed ==> g.notices == [ValidationError(ValidateStepOne(d, today).reason)]
  {
    GateOn(ValidateStepOne(d, today))
  }

  /** StepTwo `handleNext`. */
  function StepTwoNext(d: StudentFormData): (g: Gate)
    ensures g.proceed <==> d.bloodGroup != ""
    ensures |g.notices| == if g.proceed then 0 else 1
    ensures !g.proceed ==> g.notices == [ValidationError(MissingBloodGroup)]
  {
    GateOn(ValidateStepTwo(d))
  }

  /** StepThree `handleSubmit`: however many of the two required fields are
      missing, a failure raises a single toast. */
  function StepThreeSubmit(d: StudentFormData): (g: Gate)
    ensures g.proceed <==> d.motherMobile != "" && d.motherOccupation != ""
    ensures !g.proceed ==> g.notices == [ValidationError(MissingMotherContact)]
    ensures g.proceed ==> g.notices == []
  {
    assert Get(d, MotherMobile) == Text(d.motherMobile) && MotherMobile in StepThreeRequired;
    assert Get(d, MotherOccupation) == Text(d.motherOccupation) && MotherOccupation in StepThreeRequired;
    GateOn(ValidateStepThree(d))
  }

  /** Two drafts agree on the fields rendered by `step`. */
  ghost predicate AgreeOn(a: StudentFormData, b: StudentFormData, step: int)
  {
    forall f :: f in StepFields(step) ==> Get(a, f) == Get(b, f)
  }

  /** StepOne's verdict depends only on StepOne's own fields. */
  lemma StepOneReadsOwnFields(a: StudentFormData, b: StudentFormData, today: Date)
    requires AgreeOn(a, b, 1)
    ensures ValidateStepOne(a, today) == ValidateStepOne(b, today)
  {
    assert Get(a, DateOfBirth) == Get(b, DateOfBirth);
    assert Get(a, ProfileImage) == Get(b, ProfileImage);
    assert AllFilled(a, StepOneRequired) == AllFilled(b, StepOneRequired) by {
      assert forall f :: f in StepOneRequired ==> f in StepFields(1);
    }
  }

  /** StepTwo's verdict depends only on StepTwo's own fields; in particular
      allergies and medications never matter. */
  lemma StepTwoReadsOwnFields(a: StudentFormData, b: StudentFormData)
    requires AgreeOn(a, b, 2)
    ensures ValidateStepTwo(a) == ValidateStepTwo(b)
  {
    assert Get(a, BloodGroup) == Get(b, BloodGroup);
  }

  /** StepThree's verdict depends only on StepThree's own fields. */
  lemma StepThreeReadsOwnFields(a: StudentFormData, b: StudentFormData)
    requires AgreeOn(a, b, 3)
    ensures ValidateStepThree(a) == ValidateStepThree(b)
  {
    assert Get(a, MotherMobile) == Get(b, MotherMobile);
    assert Get(a, MotherOccupation) == Get(b, MotherOccupation);
  }

  /** Allergies and medications never affect StepTwo. */
  lemma AllergiesAndMedicationsIgnored(d: StudentFormData, allergies: string, medications: string)
    ensures ValidateStepTwo(d.(allergies := allergies, medications := medications)) == ValidateStepTwo(d)
  {
  }

  /** The names of both parents and the father's mobile never affect StepThree. */
  lemma OptionalParentFieldsIgnored(d: StudentFormData, motherName: string, fatherName: string, fatherMobile: string)
    ensures ValidateStepThree(d.(motherName := motherName, fatherName := fatherName, fatherMobile := fatherMobile))
         == ValidateStepThree(d)
  {
    var e := d.(motherName := motherName, fatherName := fatherName, fatherMobile := fatherMobile);
    assert AllFilled(e, StepThreeRequired) == AllFilled(d, StepThreeRequired) by {
      assert Get(e, MotherMobile) == Get(d, MotherMobile);
      assert Get(e, MotherOccupation) == Get(d, MotherOccupation);
    }
  }

  /** An edit confined to other steps' fields leaves this step's verdicts alone. */
  lemma UpdateOutsideStepKeepsAgreement(d: StudentFormData, p: Patch, step: int)
    requires WellTyped(p)
    requires p.Keys !! StepFields(step)
    ensures AgreeOn(d, Update(d, p), step)
  {
  }

  /** The offered blood groups (the negative sign is U+2212 MINUS SIGN). */
  const BloodGroups: seq<string> :=
    ["A+", "A\U{2212}", "B+", "B\U{2212}", "AB+", "AB\U{2212}", "O+", "O\U{2212}"]

  /** The offered blood groups are eight distinct non-empty values, so any of
      them passes StepTwo. */
  lemma BloodGroupsAreEightDistinct()
    ensures |BloodGroups| == 8
    ensures forall i, j :: 0 <= i < j < |BloodGroups| ==> BloodGroups[i] != BloodGroups[j]
    ensures forall g :: g in BloodGroups ==> g != ""
  {
  }

  /** The age boundary: a draft otherwise valid fails one day short of the
      eighteenth birthday and passes on it. */
  lemma AgeBoundary(d: StudentFormData)
    requires AllFilled(d, StepOneRequired) && d.profileImage.None?
    ensures ValidateStepOne(d.(dateOfBirth := Some(Date(2008, 10, 11))), Date(2026, 10, 10)) == Invalid(Underage)
    ensures ValidateStepOne(d.(dateOfBirth := Some(Date(2008, 10, 10))), Date(2026, 10, 10)) == Valid
  {
  }

  /** The image rule is case-insensitive on the extension: "photo.PNG" passes
      and "photo.jpg" does not. */
  lemma PngExamples()
    ensures ImageIsPng(Some(ImageFile("photo.PNG")))
    ensures !ImageIsPng(Some(ImageFile("photo.jpg")))
    ensures ImageIsPng(None)
  {
    assert Lower("photo.PNG")[5..] == ".png";
    assert Lower("photo.jpg")[5..] != ".png" by {
      assert Lower("photo.jpg")[6] == 'j';
    }
  }
}
