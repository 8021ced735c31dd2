/** `AdminDashboard`: the loaded students with their derived grade label,
    the search/grade/blood-group filter, the unique values offered by the two
    filter menus, and the page cursor that every filter change resets. */
module Dashboard {
  import opened Common
  import opened Text
  import opened Dates
  import Registration
  import opened Pagination
  import opened StudentTable

  /** A stored student as the dashboard reads it, with `gradeLevel` added. */
  datatype Student = Student(
    id: int,
    firstName: string,
    lastName: string,
    email: string,
    mobile: string,
    gender: string,
    dateOfBirth: Option<Date>,
    bloodGroup: string,
    motherMobile: string,
    motherOccupation: string,
    submittedAt: int,
    gradeLevel: string)

  const Grade12: string := "Grade 12"
  const Undergraduate: string := "Undergraduate"
  const Graduate: string := "Graduate"
  const Postgraduate: string := "Postgraduate"
  const GradeLabels: set<string> := {Grade12, Undergraduate, Graduate, Postgraduate}

  /** `generateMockGradeLevel`: "Grade 12" for an unset date of birth;
      otherwise by the calendar-year difference d: 18..19 "Grade 12",
      20..22 "Undergraduate", 23..25 "Graduate", anything else (below 18
      included) "Postgraduate". */
  function GradeLabel(dob: Option<Date>, today: Date): (r: string)
    ensures r in GradeLabels
    ensures r == Grade12 <==> dob.None? || 18 <= YearDifference(today, dob.value) <= 19
    ensures r == Undergraduate <==> dob.Some? && 20 <= YearDifference(today, dob.value) <= 22
    ensures r == Graduate <==> dob.Some? && 23 <= YearDifference(today, dob.value) <= 25
  {
    if dob.None? then Grade12
    else
      var age := today.year - dob.value.year;
      if age >= 18 && age <= 19 then Grade12
      else if age >= 20 && age <= 22 then Undergraduate
      else if age >= 23 && age <= 25 then Graduate
      else Postgraduate
  }

  /** The classification examples: year differences 18, 21, 24 and 30, and a
      year difference below 18. */
  lemma GradeLabelExamples(today: Date)
    ensures GradeLabel(Some(AddYears(today, -18)), today) == Grade12
    ensures GradeLabel(Some(AddYears(today, -21)), today) == Undergraduate
    ensures GradeLabel(Some(AddYears(today, -24)), today) == Graduate
    ensures GradeLabel(Some(AddYears(today, -30)), today) == Postgraduate
    ensures GradeLabel(Some(AddYears(today, -17)), today) == Postgraduate
    ensures GradeLabel(None, today) == Grade12
  {
  }

  /** One stored record as loaded, labelled with its grade. */
  function ToStudent(s: Registration.StoredStudent, today: Date): Student
  {
    Student(s.id, s.form.firstName, s.form.lastName, s.form.email, s.form.mobile,
            s.form.gender, s.form.dateOfBirth, s.form.bloodGroup, s.form.motherMobile,
            s.form.motherOccupation, s.submittedAt, GradeLabel(s.form.dateOfBirth, today))
  }

  /** Loading: the stored list in stored order, each record labelled. */
  function LoadStudents(stored: seq<Registration.StoredStudent>, today: Date): (r: seq<Student>)
    ensures |r| == |stored|
    ensures forall i :: 0 <= i < |r| ==> r[i].id == stored[i].id && r[i].gradeLevel in GradeLabels
    ensures forall i :: 0 <= i < |r| ==> r[i].gradeLevel == GradeLabel(stored[i].form.dateOfBirth, today)
    ensures forall i :: 0 <= i < |r| ==>
      && r[i].firstName == stored[i].form.firstName && r[i].lastName == stored[i].form.lastName
      && r[i].email == stored[i].form.email && r[i].mobile == stored[i].form.mobile
      && r[i].gender == stored[i].form.gender && r[i].dateOfBirth == stored[i].form.dateOfBirth
      && r[i].bloodGroup == stored[i].form.bloodGroup && r[i].motherMobile == stored[i].form.motherMobile
      && r[i].motherOccupation == stored[i].form.motherOccupation
      && r[i].submittedAt == stored[i].submittedAt
  {
    seq(|stored|, i requires 0 <= i < |stored| => ToStudent(stored[i], today))
  }

  /** Loading is record by record: a record appended by a submission is
      loaded as the last student, after the earlier ones unchanged. */
  lemma LoadStudentsAppend(stored: seq<Registration.StoredStudent>, s: Registration.StoredStudent, today: Date)
    ensures LoadStudents(stored + [s], today) == LoadStudents(stored, today) + [ToStudent(s, today)]
  {
  }

  /** The three filter inputs. */
  datatype Query = Query(searchTerm: string, gradeFilter: string, bloodGroupFilter: string)

  const All: string := "all"

  /** The lower-cased search term occurs in the lower-cased "first last" or
      in the lower-cased email. */
  predicate MatchesSearch(s: Student, term: string)
  {
    Contains(Lower(s.firstName + " " + s.lastName), Lower(term))
    || Contains(Lower(s.email), Lower(term))
  }

  /** The filter predicate: search AND grade AND blood group. */
  predicate Matches(s: Student, q: Query)
  {
    && MatchesSearch(s, q.searchTerm)
    && (q.gradeFilter == All || s.gradeLevel == q.gradeFilter)
    && (q.bloodGroupFilter == All || s.bloodGroup == q.bloodGroupFilter)
  }

  /** Searching "ann" (in any case) finds "Anna Lee" by name and misses a
      student whose name and email do not contain it. */
  lemma SearchExamples(s: Student)
    ensures MatchesSearch(s.(firstName := "Anna", lastName := "Lee"), "ANN")
    ensures !MatchesSearch(s.(firstName := "Bo", lastName := "Li", email := "bo@x.io"), "ann")
  {
    var anna := s.(firstName := "Anna", lastName := "Lee");
    assert Lower(anna.firstName + " " + anna.lastName) == "anna lee";
    assert Lower("ANN") == "ann";
    assert StartsWith("anna lee", "ann");
    var bo := s.(firstName := "Bo", lastName := "Li", email := "bo@x.io");
    assert Lower(bo.firstName + " " + bo.lastName) == "bo li";
    assert Lower(bo.email) == "bo@x.io";
    assert Lower("ann") == "ann";
    assert 'a' !in "bo li" && 'a' !in "bo@x.io";
    FirstCharAbsent("bo li", "ann");
    FirstCharAbsent("bo@x.io", "ann");
  }

  /** `students.filter(...)`: the matching students, in order. */
  function FilterStudents(xs: seq<Student>, q: Query): (r: seq<Student>)
    ensures |r| <= |xs|
    ensures forall s :: s in r <==> s in xs && Matches(s, q)
  {
    if |xs| == 0 then []
    else if Matches(xs[0], q) then [xs[0]] + FilterStudents(xs[1..], q)
    else FilterStudents(xs[1..], q)
  }

  /** `a` can be obtained from `b` by deleting elements. */
  ghost predicate IsSubsequence<T>(a: seq<T>, b: seq<T>)
    decreases |b|
  {
    if |a| == 0 then true
    else if |b| == 0 then false
    else (a[0] == b[0] && IsSubsequence(a[1..], b[1..])) || IsSubsequence(a, b[1..])
  }

  /** The filtered list keeps the input's order. */
  lemma {:induction false} FilterIsSubsequence(xs: seq<Student>, q: Query)
    ensures IsSubsequence(FilterStudents(xs, q), xs)
  {
    if |xs| > 0 {
      FilterIsSubsequence(xs[1..], q);
      var rest := FilterStudents(xs[1..], q);
      if Matches(xs[0], q) {
        assert ([xs[0]] + rest)[1..] == rest;
      }
    }
  }

  /** Filtering is decided element by element: it distributes over
      concatenation, which together with the single-element case determines
      it completely. */
  lemma {:induction false} FilterDistributes(a: seq<Student>, b: seq<Student>, q: Query)
    ensures FilterStudents(a + b, q) == FilterStudents(a, q) + FilterStudents(b, q)
    ensures FilterStudents([], q) == []
    ensures forall s :: FilterStudents([s], q) == if Matches(s, q) then [s] else []
  {
    if |a| > 0 {
      assert (a + b)[1..] == a[1..] + b;
      FilterDistributes(a[1..], b, q);
    } else {
      assert a + b == b;
    }
    forall s ensures FilterStudents([s], q) == if Matches(s, q) then [s] else [] {
      assert [s][1..] == [];
    }
  }

  /** With an empty search and both menus on "all", every student is shown. */
  lemma {:induction false} NeutralQueryKeepsAll(xs: seq<Student>)
    ensures FilterStudents(xs, Query("", All, All)) == xs
  {
    if |xs| > 0 {
      EmptyIsContained(Lower(xs[0].firstName + " " + xs[0].lastName));
      assert Lower("") == "";
      NeutralQueryKeepsAll(xs[1..]);
    }
  }

  /** Every string of `r` is distinct. */
  predicate NoDuplicates(r: seq<string>)
  {
    forall i, j :: 0 <= i < j < |r| ==> r[i] != r[j]
  }

  /** `[...new Set(values)]`: the distinct values. */
  method Distinct(values: seq<string>) returns (r: seq<string>)
    ensures NoDuplicates(r)
    ensures forall v :: v in r <==> v in values
  {
    r := [];
    var i := 0;
    while i < |values|
      invariant 0 <= i <= |values|
      invariant NoDuplicates(r)
      invariant forall v :: v in r <==> v in values[..i]
    {
      if values[i] !in r {
        r := r + [values[i]];
      }
      assert values[..i + 1] == values[..i] + [values[i]];
      i := i + 1;
    }
    assert values[..i] == values;
  }

  /** `.filter(Boolean)` on strings: drop the empty ones, keep the order. */
  function DropEmpty(s: seq<string>): (r: seq<string>)
    ensures forall v :: v in r <==> v in s && v != ""
    ensures NoDuplicates(s) ==> NoDuplicates(r)
    ensures IsSubsequence(r, s)
  {
    if |s| == 0 then []
    else if s[0] == "" then DropEmpty(s[1..])
    else
      assert NoDuplicates(s) ==> s[0] !in s[1..];
      assert ([s[0]] + DropEmpty(s[1..]))[1..] == DropEmpty(s[1..]);
      [s[0]] + DropEmpty(s[1..])
  }

  /** The options of a filter menu: each non-empty value once. */
  method UniqueNonEmpty(values: seq<string>) returns (r: seq<string>)
    ensures NoDuplicates(r)
    ensures forall v :: v in r <==> v in values && v != ""
  {
    var distinct := Distinct(values);
    r := DropEmpty(distinct);
  }

  /** `uniqueGradeLevels`: the grade labels present, each once. */
  method UniqueGradeLevels(students: seq<Student>) returns (r: seq<string>)
    ensures NoDuplicates(r)
    ensures forall v :: v in r <==> exists i :: 0 <= i < |students| && students[i].gradeLevel == v && v != ""
  {
    var levels := seq(|students|, i requires 0 <= i < |students| => students[i].gradeLevel);
    assert forall v :: v in levels <==> exists i :: 0 <= i < |students| && students[i].gradeLevel == v by {
      forall v | v in levels
        ensures exists i :: 0 <= i < |students| && students[i].gradeLevel == v
      {
        var i :| 0 <= i < |levels| && levels[i] == v;
        assert students[i].gradeLevel == v;
      }
      forall v | exists i :: 0 <= i < |students| && students[i].gradeLevel == v
        ensures v in levels
      {
        var i :| 0 <= i < |students| && students[i].gradeLevel == v;
        assert levels[i] == v;
      }
    }
    r := UniqueNonEmpty(levels);
  }

  /** `uniqueBloodGroups`: the non-empty blood groups present, each once. */
  method UniqueBloodGroups(students: seq<Student>) returns (r: seq<string>)
    ensures NoDuplicates(r)
    ensures forall v :: v in r <==> exists i :: 0 <= i < |students| && students[i].bloodGroup == v && v != ""
  {
    var groups := seq(|students|, i requires 0 <= i < |students| => students[i].bloodGroup);
    assert forall v :: v in groups <==> exists i :: 0 <= i < |students| && students[i].bloodGroup == v by {
      forall v | v in groups
        ensures exists i :: 0 <= i < |students| && students[i].bloodGroup == v
      {
        var i :| 0 <= i < |groups| && groups[i] == v;
        assert students[i].bloodGroup == v;
      }
      forall v | exists i :: 0 <= i < |students| && students[i].bloodGroup == v
        ensures v in groups
      {
        var i :| 0 <= i < |students| && students[i].bloodGroup == v;
        assert groups[i] == v;
      }
    }
    r := UniqueNonEmpty(groups);
  }

  /** The dashboard state. */
  datatype DashboardState = DashboardState(students: seq<Student>, query: Query, currentPage: int)

  /** The dashboard inputs: the search box, the two menus, and the table's
      pagination controls. */
  datatype DashboardEvent =
    | SearchChanged(term: string)
    | GradeFilterChanged(grade: string)
    | BloodGroupFilterChanged(group: string)
    | TablePressed(control: Control)

  /** The freshly mounted dashboard: loaded list, no search, both menus on
      "all", page 1. */
  function Mount(stored: seq<Registration.StoredStudent>, today: Date): (d: DashboardState)
    ensures d.currentPage == 1 && d.query == Query("", All, All)
    ensures d.students == LoadStudents(stored, today)
    ensures FilterStudents(d.students, d.query) == d.students
  {
    NeutralQueryKeepsAll(LoadStudents(stored, today));
    DashboardState(LoadStudents(stored, today), Query("", All, All), 1)
  }

  function Filtered(d: DashboardState): seq<Student>
  {
    FilterStudents(d.students, d.query)
  }

  function PageCount(d: DashboardState): nat
  {
    TotalPages(|Filtered(d)|)
  }

  /** The rows of the table. */
  function VisibleRows(d: DashboardState): (r: seq<Student>)
    ensures |r| <= RecordsPerPage
    ensures forall s :: s in r ==> s in d.students && Matches(s, d.query)
  {
    PageOf(Filtered(d), d.currentPage)
  }

  /** One dashboard event. Each filter change stores the new value and resets
      the page to 1; a table press moves to the requested page. */
  function Apply(d: DashboardState, e: DashboardEvent): (r: DashboardState)
    ensures r.students == d.students
    ensures !e.TablePressed? ==> r.currentPage == 1
    ensures e.SearchChanged? ==> r.query == d.query.(searchTerm := e.term)
    ensures e.GradeFilterChanged? ==> r.query == d.query.(gradeFilter := e.grade)
    ensures e.BloodGroupFilterChanged? ==> r.query == d.query.(bloodGroupFilter := e.group)
    ensures e.TablePressed? ==> r.query == d.query
    ensures e.TablePressed? && Press(d.currentPage, PageCount(d), e.control).Some? ==>
      r.currentPage == Press(d.currentPage, PageCount(d), e.control).value
    ensures e.TablePressed? && Press(d.currentPage, PageCount(d), e.control).None? ==> r == d
  {
    match e
    case SearchChanged(t) => d.(query := d.query.(searchTerm := t), currentPage := 1)
    case GradeFilterChanged(g) => d.(query := d.query.(gradeFilter := g), currentPage := 1)
    case BloodGroupFilterChanged(b) => d.(query := d.query.(bloodGroupFilter := b), currentPage := 1)
    case TablePressed(c) =>
      match Press(d.currentPage, PageCount(d), c)
      case Some(p) => d.(currentPage := p)
      case None => d
  }

  /** The page cursor is 1, or a real page of the filtered list. */
  ghost predicate PageInRange(d: DashboardState)
  {
    d.currentPage == 1 || 1 <= d.currentPage <= PageCount(d)
  }

  /** Every dashboard event keeps the page cursor in range: filter changes
      reset it to 1 and the table only offers pages 1..totalPages. */
  lemma ApplyKeepsPageInRange(d: DashboardState, e: DashboardEvent)
    requires PageInRange(d)
    ensures PageInRange(Apply(d, e))
  {
    if e.TablePressed? {
      var r := Press(d.currentPage, PageCount(d), e.control);
      if r.Some? {
        assert ControlsShown(PageCount(d));
      }
    }
  }

  /** On a real page, the shown rows are the filtered records numbered
      startRecord..endRecord. */
  lemma VisibleRowsMatchBadge(d: DashboardState)
    requires 1 <= d.currentPage <= PageCount(d)
    ensures VisibleRows(d) == Filtered(d)[StartRecord(d.currentPage, RecordsPerPage) - 1
                                         ..EndRecord(d.currentPage, RecordsPerPage, |Filtered(d)|)]
  {
    ShownRangeIsPage(Filtered(d), d.currentPage);
  }
}
