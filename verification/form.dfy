/** The registration draft (`StudentFormData`), its fields addressed by name
    the way `Partial<StudentFormData>` addresses them, and the merge performed
    by `updateFormData`. */
module Form {
  import opened Common
  import opened Dates

  /** A selected file; only its name is ever read. */
  datatype ImageFile = ImageFile(name: string)

  /** The fifteen fields of the draft. */
  datatype StudentFormData = StudentFormData(
    firstName: string,
    lastName: string,
    gender: string,
    dateOfBirth: Option<Date>,
    email: string,
    mobile: string,
    profileImage: Option<ImageFile>,
    bloodGroup: string,
    allergies: string,
    medications: string,
    motherMobile: string,
    motherOccupation: string,
    fatherName: string,
    fatherMobile: string,
    motherName: string)

  /** The keys of `StudentFormData`. */
  datatype Field =
    | FirstName | LastName | Gender | DateOfBirth | Email | Mobile | ProfileImage
    | BloodGroup | Allergies | Medications
    | MotherMobile | MotherOccupation | FatherName | FatherMobile | MotherName

  /** The value stored under a key: text, an optional date or an optional file. */
  datatype FieldValue =
    | Text(text: string)
    | DateValue(date: Option<Date>)
    | ImageValue(image: Option<ImageFile>)

  /** `v` has the type the draft declares for `f`. */
  predicate Fits(f: Field, v: FieldValue)
  {
    match f
    case DateOfBirth => v.DateValue?
    case ProfileImage => v.ImageValue?
    case _ => v.Text?
  }

  /** `formData[f]`. */
  function Get(d: StudentFormData, f: Field): (v: FieldValue)
    ensures Fits(f, v)
  {
    match f
    case FirstName => Text(d.firstName)
    case LastName => Text(d.lastName)
    case Gender => Text(d.gender)
    case DateOfBirth => DateValue(d.dateOfBirth)
    case Email => Text(d.email)
    case Mobile => Text(d.mobile)
    case ProfileImage => ImageValue(d.profileImage)
    case BloodGroup => Text(d.bloodGroup)
    case Allergies => Text(d.allergies)
    case Medications => Text(d.medications)
    case MotherMobile => Text(d.motherMobile)
    case MotherOccupation => Text(d.motherOccupation)
    case FatherName => Text(d.fatherName)
    case FatherMobile => Text(d.fatherMobile)
    case MotherName => Text(d.motherName)
  }

  /** JavaScript falsiness of a field value: the empty string, `undefined`
      and `null`. */
  predicate IsFalsy(v: FieldValue)
  {
    match v
    case Text(s) => s == ""
    case DateValue(o) => o.None?
    case ImageValue(o) => o.None?
  }

  /** The value every field holds in a fresh draft. */
  function Blank(f: Field): FieldValue
  {
    match f
    case DateOfBirth => DateValue(None)
    case ProfileImage => ImageValue(None)
    case _ => Text("")
  }

  /** Two drafts that agree on every field are the same draft. */
  lemma FieldsDetermineForm(a: StudentFormData, b: StudentFormData)
    requires forall f :: Get(a, f) == Get(b, f)
    ensures a == b
  {
    assert Get(a, FirstName) == Get(b, FirstName);
    assert Get(a, LastName) == Get(b, LastName);
    assert Get(a, Gender) == Get(b, Gender);
    assert Get(a, DateOfBirth) == Get(b, DateOfBirth);
    assert Get(a, Email) == Get(b, Email);
    assert Get(a, Mobile) == Get(b, Mobile);
    assert Get(a, ProfileImage) == Get(b, ProfileImage);
    assert Get(a, BloodGroup) == Get(b, BloodGroup);
    assert Get(a, Allergies) == Get(b, Allergies);
    assert Get(a, Medications) == Get(b, Medications);
    assert Get(a, MotherMobile) == Get(b, MotherMobile);
    assert Get(a, MotherOccupation) == Get(b, MotherOccupation);
    assert Get(a, FatherName) == Get(b, FatherName);
    assert Get(a, FatherMobile) == Get(b, FatherMobile);
    assert Get(a, MotherName) == Get(b, MotherName);
  }

  /** `initialFormData`: every text field empty, no date of birth, no image. */
  function InitialFormData(): (d: StudentFormData)
    ensures forall f :: Get(d, f) == Blank(f)
    ensures forall f :: IsFalsy(Get(d, f))
  {
    StudentFormData("", "", "", None, "", "", None, "", "", "", "", "", "", "", "")
  }

  /** A `Partial<StudentFormData>`: the supplied keys and their values. */
  type Patch = map<Field, FieldValue>

  /** Every supplied value has its field's declared type. */
  predicate WellTyped(p: Patch)
  {
    forall f | f in p :: Fits(f, p[f])
  }

  function TextOr(p: Patch, f: Field, current: string): string
  {
    if f in p && p[f].Text? then p[f].text else current
  }

  function DateOr(p: Patch, current: Option<Date>): Option<Date>
  {
    if DateOfBirth in p && p[DateOfBirth].DateValue? then p[DateOfBirth].date else current
  }

  function ImageOr(p: Patch, current: Option<ImageFile>): Option<ImageFile>
  {
    if ProfileImage in p && p[ProfileImage].ImageValue? then p[ProfileImage].image else current
  }

  /** `updateFormData(p)`, i.e. `{ ...prev, ...p }`: every supplied field takes
      the supplied value and every other field keeps its value. */
  function Update(d: StudentFormData, p: Patch): (r: StudentFormData)
    requires WellTyped(p)
    ensures forall f :: f in p ==> Get(r, f) == p[f]
    ensures forall f :: f !in p ==> Get(r, f) == Get(d, f)
  {
    StudentFormData(
      firstName := TextOr(p, FirstName, d.firstName),
      lastName := TextOr(p, LastName, d.lastName),
      gender := TextOr(p, Gender, d.gender),
      dateOfBirth := DateOr(p, d.dateOfBirth),
      email := TextOr(p, Email, d.email),
      mobile := TextOr(p, Mobile, d.mobile),
      profileImage := ImageOr(p, d.profileImage),
      bloodGroup := TextOr(p, BloodGroup, d.bloodGroup),
      allergies := TextOr(p, Allergies, d.allergies),
      medications := TextOr(p, Medications, d.medications),
      motherMobile := TextOr(p, MotherMobile, d.motherMobile),
      motherOccupation := TextOr(p, MotherOccupation, d.motherOccupation),
      fatherName := TextOr(p, FatherName, d.fatherName),
      fatherMobile := TextOr(p, FatherMobile, d.fatherMobile),
      motherName := TextOr(p, MotherName, d.motherName))
  }

  /** Merging nothing changes nothing. */
  lemma UpdateEmptyIsIdentity(d: StudentFormData)
    ensures Update(d, map[]) == d
  {
    FieldsDetermineForm(Update(d, map[]), d);
  }

  /** Two successive merges are one merge of the combined patch, later keys
      winning, just as for object spread. */
  lemma UpdateComposes(d: StudentFormData, p: Patch, q: Patch)
    requires WellTyped(p) && WellTyped(q)
    ensures WellTyped(p + q)
    ensures Update(Update(d, p), q) == Update(d, p + q)
  {
    var pq := p + q;
    assert WellTyped(pq) by {
      forall f | f in pq
        ensures Fits(f, pq[f])
      {
        if f in q { assert pq[f] == q[f]; } else { assert pq[f] == p[f]; }
      }
    }
    var lhs := Update(Update(d, p), q);
    var rhs := Update(d, pq);
    forall f
      ensures Get(lhs, f) == Get(rhs, f)
    {
      if f in q {
        assert pq[f] == q[f];
      } else if f in p {
        assert pq[f] == p[f];
      } else {
        assert f !in pq;
      }
    }
    FieldsDetermineForm(lhs, rhs);
  }

  /** Merging the same patch twice is merging it once. */
  lemma UpdateIdempotent(d: StudentFormData, p: Patch)
    requires WellTyped(p)
    ensures Update(Update(d, p), p) == Update(d, p)
  {
    UpdateComposes(d, p, p);
    assert p + p == p;
  }
}
