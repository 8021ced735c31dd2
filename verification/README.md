# Student registration form and admin panel: a Dafny model

The repository is a small React application with two parts:

- a three-step student registration wizard (`StudentRegistrationForm`,
  `StepOne`, `StepTwo`, `StepThree`);
- an admin page (`Admin`, `AdminDashboard`, `StudentTable`) that lists the
  stored registrations and lets you search, filter and page through them,
  behind a fixed login.

This project models the parts of the code that are pure sequential logic.
Each is written as immutable datatypes and total functions:

- `common.dfy`: `Option`, `Check` (a validator outcome), `Min`, `Max`.
- `text.dfy`: ASCII `toLowerCase`, `includes` (`Contains`) and `endsWith`.
- `dates.dfy`: calendar dates as (year, month, day) and two age rules.
  - `differenceInYears` from date-fns counts whole years. The registration
    age check uses it.
  - The admin grade label uses the plain `getFullYear` difference.
- `form.dfy`: the fifteen-field draft `StudentFormData` and
  `initialFormData`.
  - Fields are addressed by name, the way `Partial<StudentFormData>` does it.
  - `updateFormData` is modelled as a map merge.
- `steps.dfy`: the three `validateStep` functions and their button handlers.
  - A toast becomes a returned `Notice`.
  - A handler returns a `Gate` that says whether `onNext`/`onSubmit` runs.
- `registration.dfy`: the wizard state machine.
  - State: `currentStep`, `formData` and the terminal `isSubmitted` flag.
  - `handleSubmit` appends one assembled record to the stored students list.
  - `Dispatch` handles one applicant event.
  - The proved invariant: a record is stored only for a draft that passes all
    three steps.
- `pagination.dfy`: `Math.ceil(n / 10)` pages and the page slice, using
  JavaScript `slice` index rules.
- `student_table.dfy`: the "Showing start-end" range, the five-wide window of
  page buttons, the Previous/Next buttons and the badge colour index.
- `dashboard.dfy`: the dashboard query.
  - Loading labels each student with a grade.
  - The conjunctive search/grade/blood-group filter.
  - The de-duplicated filter menu options.
  - The page cursor, which every filter change resets to 1.
- `admin_session.dfy`: the `admin`/`1234` check and a session that expires
  86,400,000 ms after login.
  - The mount-time check grants access only while `expires > now`
    (strictly).
  - Logout clears the session.

Outside inputs become parameters or plain state:

- the browser's storage is a `seq` of records or an `Option<Session>`;
- `Date.now()` and `new Date()` become the parameters `now` (integer
  milliseconds) and `today` (a `Date`);
- whether storage throws is a boolean, `storageOk`.

Points where the code's behaviour is easy to misread, all modelled as written:

- An unset date of birth is labelled "Grade 12"
  (src/components/admin/AdminDashboard.tsx:52).
- The grade label uses the calendar-year difference of `getFullYear`, not
  whole years of age (src/components/admin/AdminDashboard.tsx:55-61). A year difference below 18
  falls through to "Postgraduate", although the comment at line 57 assumes
  every student is 18 or older.
- `totalPages` is `Math.ceil(0 / 10) = 0` for an empty filtered list
  (src/components/admin/AdminDashboard.tsx:79).
- Submission appends the assembled record to the stored list and nothing
  else (src/components/StudentRegistrationForm.tsx:77-105). Empty optional fields are stored
  as the empty string.
- The dashboard lists students in stored order, which is submission order;
  nothing sorts them (src/components/admin/AdminDashboard.tsx:38-49, 65-76).

## Model

| member | source | states |
|---|---|---|
| Form.InitialFormData | src/components/StudentRegistrationForm.tsx:34-50 | A fresh draft has every text field empty, no date of birth and no image, so every field is falsy |
| Form.Update | src/components/StudentRegistrationForm.tsx:61-63 | Merging a partial record sets exactly the supplied fields to the supplied values; every other field keeps its previous value |
| Form.UpdateEmptyIsIdentity | src/components/StudentRegistrationForm.tsx:61-63 | Merging an empty partial record leaves the draft unchanged |
| Form.UpdateComposes | src/components/StudentRegistrationForm.tsx:61-63 | Two successive merges equal one merge of the combined patch, with later keys winning (object-spread semantics) |
| Form.UpdateIdempotent | src/components/StudentRegistrationForm.tsx:61-63 | Applying the same merge twice is the same as applying it once |
| Steps.MissingFields | src/components/registration-steps/StepOne.tsx:23-24 | The missing-fields list holds exactly the required fields whose value is falsy |
| Steps.ValidateStepOne | src/components/registration-steps/StepOne.tsx:22-64 | Step 1 passes iff: the five required fields are filled, a date of birth is set, today is on or after the 18th birthday, and the image is absent or its lower-cased name ends in ".png". Otherwise the first failing check in that order is the one reported |
| Steps.ValidateStepTwo | src/components/registration-steps/StepTwo.tsx:21-31 | Step 2 passes iff the blood group is non-empty. A failure reports the missing blood group |
| Steps.ValidateStepThree | src/components/registration-steps/StepThree.tsx:17-30 | Step 3 passes iff the mother's mobile and occupation are both filled. Any failure reports one mother-contact violation |
| Steps.StepOneNext | src/components/registration-steps/StepOne.tsx:66-70 | `onNext` runs iff step-1 validation passes. A failure raises exactly one toast, naming the first failing check; a pass raises none |
| Steps.StepTwoNext | src/components/registration-steps/StepTwo.tsx:33-37 | `onNext` runs iff the blood group is non-empty. A failure raises exactly one toast, the missing-blood-group one |
| Steps.StepThreeSubmit | src/components/registration-steps/StepThree.tsx:32-36 | `onSubmit` runs iff the mother's mobile and occupation are filled. A failure raises exactly one toast, whichever fields are missing |
| Steps.StepOneReadsOwnFields | src/components/registration-steps/StepOne.tsx:22-64 | Two drafts that agree on step 1's fields get the same step-1 verdict |
| Steps.StepTwoReadsOwnFields | src/components/registration-steps/StepTwo.tsx:21-31 | Two drafts that agree on step 2's fields get the same step-2 verdict |
| Steps.StepThreeReadsOwnFields | src/components/registration-steps/StepThree.tsx:17-30 | Two drafts that agree on step 3's fields get the same step-3 verdict |
| Steps.AllergiesAndMedicationsIgnored | src/components/registration-steps/StepTwo.tsx:21-31 | Changing allergies or medications never changes the step-2 verdict |
| Steps.OptionalParentFieldsIgnored | src/components/registration-steps/StepThree.tsx:17-30 | Changing the mother's name, father's name or father's mobile never changes the step-3 verdict |
| Steps.UpdateOutsideStepKeepsAgreement | src/components/StudentRegistrationForm.tsx:61-63 | A merge that touches none of a step's fields leaves that step's fields as they were |
| Steps.StepFieldsDisjoint | src/components/registration-steps/StepOne.tsx:84-189 | Different steps render disjoint sets of input fields; step 1 renders the six personal fields and the image |
| Steps.StepFieldsPartition | src/components/registration-steps/StepTwo.tsx:46-82 | Every field is rendered by exactly one step; step 2 renders blood group, allergies and medications |
| Steps.RequiredFieldsRendered | src/components/registration-steps/StepThree.tsx:38-99 | Every field a step requires is rendered by that step: the five personal fields, date of birth and image on step 1, the blood group on step 2, the mother's mobile and occupation among step 3's five parent fields |
| Steps.BloodGroupsAreEightDistinct | src/components/registration-steps/StepTwo.tsx:16 | The offered blood groups are 8 distinct non-empty values |
| Steps.AgeBoundary | src/components/registration-steps/StepOne.tsx:44-52 | On 2026-10-10, a birth date of 2008-10-11 (17 years 364 days) fails as under 18, and 2008-10-10 (exactly 18 years) passes |
| Steps.PngExamples | src/components/registration-steps/StepOne.tsx:54-61 | "photo.PNG" passes the image rule, "photo.jpg" fails, and no image passes |
| Dates.WholeYears | src/components/registration-steps/StepOne.tsx:44 | The whole-year age is the largest n such that the n-th anniversary is not after today |
| Dates.DifferenceInYears | src/components/registration-steps/StepOne.tsx:44 | `differenceInYears(a, b)` is non-negative when the first argument `a` is not before the second argument `b`, and non-positive when `a` is before `b` |
| Dates.AtLeastYearsIff | src/components/registration-steps/StepOne.tsx:44-52 | At least n ≥ 1 whole years have passed iff today is not before the n-th anniversary of the birth date |
| Dates.AtLeastYearsPersists | src/components/registration-steps/StepOne.tsx:44-52 | Once someone is at least n years old, they stay so as today moves forward |
| Dates.YearDifferenceBoundsAge | src/components/admin/AdminDashboard.tsx:53-55 | The admin's calendar-year difference is the whole-year age or one more |
| Text.Lower | src/components/registration-steps/StepOne.tsx:54 | Lower-casing keeps the length and leaves no upper-case ASCII letter |
| Text.ContainsIffOccurs | src/components/admin/AdminDashboard.tsx:67-69 | The scanning substring test holds iff the needle occurs at some index of the haystack |
| Registration.Start | src/components/StudentRegistrationForm.tsx:52-55 | The wizard starts on step 1, with a blank draft, and not submitted |
| Registration.NextStep | src/components/StudentRegistrationForm.tsx:65-69 | The cursor moves forward by one iff it is below 3, and never passes 3 |
| Registration.PrevStep | src/components/StudentRegistrationForm.tsx:71-75 | The cursor moves back by one iff it is above 1, and never goes below 1 |
| Registration.CursorMovesInverse | src/components/StudentRegistrationForm.tsx:65-75 | Both moves keep the cursor in [1,3]. Back-then-forward and forward-then-back return to the same step |
| Registration.Assemble | src/components/StudentRegistrationForm.tsx:83-88 | The assembled record keeps the whole draft, uses `now` as both id and timestamp, and has an image name iff a file with a non-empty name is attached |
| Registration.ImageName | src/components/StudentRegistrationForm.tsx:87 | `profileImageName` is the file's name when a file with a non-empty name is present, and null otherwise |
| Registration.Submit | src/components/StudentRegistrationForm.tsx:77-105 | On success: exactly one record is appended at the end, holding the draft, `now` as id and timestamp, and the image name; `isSubmitted` becomes true. If storage fails, nothing is stored, the wizard is unchanged and the one toast is the submission error. On success the one toast is the success toast |
| Registration.Dispatch | src/components/StudentRegistrationForm.tsx:107-142 | Once submitted, every event is a no-op. The store changes only by one append, on a successful submit. On step 3, Submit appends the record and sets `isSubmitted` iff step 3 validates and storage works, and always shows one toast. On steps 1 and 2, Next advances iff that step validates; a failure keeps the wizard and shows one toast, a pass shows none. Each failure shows its own toast: step 1's first failing check, the missing blood group, the missing mother contact, or the storage error. An edit of a field the current step does not render is dropped. `isSubmitted` becomes true only together with a stored record. Submit never moves the cursor, and a failed Submit leaves the wizard unchanged. A button the current step does not render (Next on step 3, Previous on step 1, Submit on steps 1-2) does nothing. Step moves never touch the draft. An edit merges into the draft and keeps the step |
| Registration.ViewOf | src/components/StudentRegistrationForm.tsx:107-109 | The success view is shown iff submitted; otherwise the current step's view |
| Registration.StartIsConsistent | src/components/StudentRegistrationForm.tsx:52-55 | The starting wizard satisfies the wizard invariant |
| Registration.StepOneValidPersists | src/components/registration-steps/StepOne.tsx:44-52 | A draft that passed step 1 still passes it on any later day |
| Registration.EditKeepsConsistency | src/components/StudentRegistrationForm.tsx:61-63 | An edit of the current step's fields keeps the earlier steps' verdicts |
| Registration.DispatchPreservesConsistency | src/components/StudentRegistrationForm.tsx:111-142 | Every event keeps the invariant, with a clock that never runs backwards. The cursor stays in [1,3]; steps 2 and 3 are reached only with earlier steps valid. A stored record always passes all three validators |
| Registration.RetreatThenAdvance | src/components/StudentRegistrationForm.tsx:65-75 | From step 2 or 3, Previous then Next restores the wizard exactly: every entered value is kept |
| Registration.PreviousNeverValidates | src/components/registration-steps/StepTwo.tsx:85 | Previous on step 2 or 3 moves back one step with no validation, no toast and no change to the draft |
| Registration.SubmittedIsTerminal | src/components/StudentRegistrationForm.tsx:107-109 | After submission no event changes anything, and only the success view is shown |
| Pagination.TotalPages | src/components/admin/AdminDashboard.tsx:79 | The page count is ceil(n/10): the fewest pages of ten holding n records, and 0 iff n = 0 |
| Pagination.ResolveIndex | src/components/admin/AdminDashboard.tsx:81 | A slice index resolves into [0, n]. It is unchanged when already inside; a negative index counts back from n and stops at 0; an index past n becomes n |
| Pagination.Slice | src/components/admin/AdminDashboard.tsx:81 | `slice(start, end)` returns max(e - b, 0) elements, where b and e are the resolved start and end. Element k of the result is element b + k of the input |
| Pagination.PageOf | src/components/admin/AdminDashboard.tsx:80-81 | A page holds at most 10 records |
| Pagination.PageOfIsWindow | src/components/admin/AdminDashboard.tsx:80-81 | For p ≥ 1, page p is `filtered[(p-1)*10 .. min(p*10, n))` |
| Pagination.PageEmptyIffPastLast | src/components/admin/AdminDashboard.tsx:79-81 | For p ≥ 1, page p is empty iff p > totalPages |
| Pagination.PagesArePrefix | src/components/admin/AdminDashboard.tsx:79-81 | Pages 1..k laid end to end are the first min(10k, n) records |
| Pagination.PagesPartitionList | src/components/admin/AdminDashboard.tsx:79-81 | Pages 1..totalPages laid end to end are exactly the filtered list |
| StudentTable.StartRecord | src/components/admin/StudentTable.tsx:39 | For page ≥ 1, the first record number is at least 1. With a positive page size it lies inside the page's range ((p-1)·size, p·size] |
| StudentTable.EndRecord | src/components/admin/StudentTable.tsx:40 | The last record number is at most the total and at most p·size, and it equals one of them |
| StudentTable.ShownRangeIsPage | src/components/admin/StudentTable.tsx:39-40 | For 1 ≤ p ≤ totalPages: 1 ≤ startRecord ≤ endRecord ≤ n, page p is records startRecord..endRecord (1-based), and its length is endRecord - startRecord + 1 |
| StudentTable.PageWindow | src/components/admin/StudentTable.tsx:146-156 | The window has min(5, totalPages) entries. They are consecutive increasing page numbers in [1, totalPages], and they include the current page when it is in range |
| StudentTable.Press | src/components/admin/StudentTable.tsx:127-176 | Controls work only with more than one page. Previous is enabled iff the page is not 1; Next iff it is not the last. Previous asks for current - 1, Next for current + 1, and a page button for the page number it shows. From a page in range every press lands in [1, totalPages] |
| StudentTable.BloodGroupColor | src/components/admin/StudentTable.tsx:50-57 | `length % 4` always picks one of the four colours |
| Dashboard.GradeLabel | src/components/admin/AdminDashboard.tsx:51-62 | The label is one of four. "Grade 12" iff DOB is unset or the year difference is 18–19; "Undergraduate" iff 20–22; "Graduate" iff 23–25; "Postgraduate" otherwise |
| Dashboard.GradeLabelExamples | src/components/admin/AdminDashboard.tsx:51-62 | Year differences 18, 21, 24 and 30 give "Grade 12", "Undergraduate", "Graduate" and "Postgraduate". A difference of 17 gives "Postgraduate"; an unset DOB gives "Grade 12" |
| Dashboard.LoadStudents | src/components/admin/AdminDashboard.tsx:38-49 | Loading keeps the stored order and length. Each row copies the record's id, names, email, mobile, gender, date of birth, blood group, mother's contact and timestamp, and adds its grade label |
| Dashboard.LoadStudentsAppend | src/components/admin/AdminDashboard.tsx:38-49 | A record appended by a submission loads as the last student, after the earlier students unchanged |
| Dashboard.SearchExamples | src/components/admin/AdminDashboard.tsx:67-69 | The search is case-insensitive: "ANN" finds "Anna Lee", and "ann" misses a student whose name and email lack it |
| Dashboard.FilterStudents | src/components/admin/AdminDashboard.tsx:65-76 | A student is in the output iff it is in the input and matches the search AND the grade filter AND the blood-group filter |
| Dashboard.FilterIsSubsequence | src/components/admin/AdminDashboard.tsx:65-76 | The filter output is an order-preserving subsequence of the input |
| Dashboard.FilterDistributes | src/components/admin/AdminDashboard.tsx:66-75 | The filter distributes over concatenation and keeps a single student iff it matches, which fixes it completely |
| Dashboard.NeutralQueryKeepsAll | src/components/admin/AdminDashboard.tsx:67-72 | With an empty search and both filters on "all", the output equals the input |
| Dashboard.Distinct | src/components/admin/AdminDashboard.tsx:84-85 | Spreading a Set gives each input value exactly once |
| Dashboard.DropEmpty | src/components/admin/AdminDashboard.tsx:84-85 | `.filter(Boolean)` keeps exactly the non-empty values, in their input order, and keeps them distinct |
| Dashboard.UniqueNonEmpty | src/components/admin/AdminDashboard.tsx:84-85 | A menu's options are exactly the non-empty input values, each once |
| Dashboard.UniqueGradeLevels | src/components/admin/AdminDashboard.tsx:84 | The grade menu lists each grade label present among the students exactly once |
| Dashboard.UniqueBloodGroups | src/components/admin/AdminDashboard.tsx:85 | The blood-group menu lists each non-empty blood group present exactly once |
| Dashboard.Mount | src/components/admin/AdminDashboard.tsx:30-49 | The dashboard starts on page 1, with an empty search and both filters on "all". Its students are the loaded stored records, and the filter initially shows all of them |
| Dashboard.VisibleRows | src/components/admin/AdminDashboard.tsx:80-81 | The table shows at most 10 students, each a loaded student that matches the query |
| Dashboard.Apply | src/components/admin/AdminDashboard.tsx:150-203 | A search, grade or blood-group change sets only that filter and resets the page to 1. A table press that the table accepts moves to the page it requests; a press it refuses changes nothing. The students never change |
| Dashboard.ApplyKeepsPageInRange | src/components/admin/AdminDashboard.tsx:150-203 | Every dashboard event keeps the page either 1 or a real page of the filtered list |
| Dashboard.VisibleRowsMatchBadge | src/components/admin/AdminDashboard.tsx:199-206 | On a real page, the rows shown are the filtered records numbered startRecord..endRecord |
| AdminSession.Open | src/pages/Admin.tsx:8-20 | A stored session grants access iff `expires > now` strictly. Otherwise the session is removed |
| AdminSession.Login | src/pages/Admin.tsx:22-34 | Login succeeds iff username = "admin" and password = "1234". Success stores a session expiring at now + 86,400,000 ms and authenticates; failure returns false and changes nothing |
| AdminSession.ViewOf | src/pages/Admin.tsx:41-45 | The dashboard is shown iff authenticated; otherwise the login view |
| AdminSession.SessionLastsOneDay | src/pages/Admin.tsx:14-30 | After a successful login at `now`, a visit at `later` reaches the dashboard iff `later < now + 24h` |
| AdminSession.Logout | src/pages/Admin.tsx:36-39 | Whatever the page held, logout clears the flag and removes the stored session |
| AdminSession.LogoutEndsAccess | src/pages/Admin.tsx:36-39 | Logout removes the session and clears the flag. Neither the current view nor any later visit shows the dashboard |

## Left out

- Rendering is not modelled: JSX, styling, the progress bar, gender badge
  colours and the badge colour strings. Only the colour index fact is kept.
- Toast UI is not modelled: a toast is a returned `Notice` value.
- `localStorage` and JSON parse/stringify are not modelled.
  - The stored students list is a `seq` and the session an `Option`.
  - Any throw inside `handleSubmit` (parse, quota) is the single flag
    `storageOk`.
  - A corrupt stored list on the dashboard (an uncaught `JSON.parse` error)
    is not modelled.
- Serialisation is dropped: ISO date strings, time zones and the JSON form of
  the `File` object.
  - `submittedAt` keeps the same millisecond value as `id`.
  - Dates are (year, month, day) triples.
- `Registration.Assemble` keeps the whole draft, `profileImage` included. The
  JSON form of a `File` (`{}`) is not modelled.
- Dates.DifferenceInYears: ignores the time of day of `new Date()`. This can
  change the result only for a birth date in the future, where both versions
  are at most 0 and the check fails anyway.
- `toLowerCase` is modelled on ASCII letters only. Unicode case mapping is
  not modelled.
- The calendar's "no future dates" restriction (StepOne.tsx:145) is a widget
  constraint. It is not a precondition; the model accepts any date, and a
  future date fails the age check.
- Registration.Dispatch: an edit is accepted only for the fields of the step
  on screen. Edits to other fields are dropped. This reflects which inputs
  each step renders (StepOne.tsx:84-189, StepTwo.tsx:46-82,
  StepThree.tsx:38-99); `updateFormData` itself accepts any field.
- Registration.DispatchPreservesConsistency: assumes the clock never runs
  backwards between events. Step-1 validity is re-established only through
  age monotonicity.
- `AdminLogin.tsx` is not modelled: it is only form plumbing and a
  `setTimeout` delay.
- `SuccessMessage.tsx` is not modelled: it only calls
  `window.location.reload`.
- `Index.tsx` is not modelled: it is layout only.
- Dashboard.FilterStudents: its own contract states membership only.
  Multiplicity and order are stated by `Dashboard.FilterDistributes` and
  `Dashboard.FilterIsSubsequence`.
- Dashboard.Distinct: states which values appear and that each appears
  once, not the first-occurrence order a `Set` keeps. The menu order does not
  affect which students the filter selects.
