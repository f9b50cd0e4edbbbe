/**
 * The server's catalog store: the `students` and `courses` tables with their many-to-many
 * enrollment link (models.py), the `Query` resolvers and the name and course filters
 * (schema.py), and the `mutate` methods that change the store in place.
 */
module Catalog {
  import opened Wrappers
  import opened Text

  /** A row of `students` together with the ids of the courses it is linked to, in link order. */
  datatype Student = Student(id: int, name: string, email: string, courses: seq<int>)

  /** A row of `courses`. */
  datatype Course = Course(id: int, name: string)

  /** The only way a commit fails here: the UNIQUE constraint on `students.email`. */
  datatype DbError = UniqueEmailViolation

  /** What a mutation hands back: its value, or the error its commit raised. */
  datatype Result<T> = Ok(value: T) | Err(error: DbError)

  // ---------------------------------------------------------------------------
  // Columns and table invariants
  // ---------------------------------------------------------------------------

  function StudentIds(ss: seq<Student>): (r: seq<int>)
    ensures |r| == |ss| && forall i :: 0 <= i < |ss| ==> r[i] == ss[i].id
  {
    seq(|ss|, i requires 0 <= i < |ss| => ss[i].id)
  }

  function Emails(ss: seq<Student>): (r: seq<string>)
    ensures |r| == |ss| && forall i :: 0 <= i < |ss| ==> r[i] == ss[i].email
  {
    seq(|ss|, i requires 0 <= i < |ss| => ss[i].email)
  }

  function CourseIds(cs: seq<Course>): (r: seq<int>)
    ensures |r| == |cs| && forall i :: 0 <= i < |cs| ==> r[i] == cs[i].id
  {
    seq(|cs|, i requires 0 <= i < |cs| => cs[i].id)
  }

  predicate Distinct<T(==)>(xs: seq<T>)
  {
    forall i, j :: 0 <= i < j < |xs| ==> xs[i] != xs[j]
  }

  /**
   * What the schema guarantees of every committed state: primary keys are unique,
   * `students.email` is unique, and every enrollment names an existing course.
   */
  ghost predicate WellFormed(ss: seq<Student>, cs: seq<Course>)
  {
    && Distinct(StudentIds(ss))
    && Distinct(Emails(ss))
    && Distinct(CourseIds(cs))
    && forall s, c :: s in ss && c in s.courses ==> c in CourseIds(cs)
  }

  /**
   * The id SQLite gives a new row of a table keyed by INTEGER PRIMARY KEY: 1 for an empty
   * table, otherwise one more than the largest id present.
   */
  function FreshId(ids: seq<int>): (r: int)
    ensures ids == [] ==> r == 1
    ensures ids != [] ==> r - 1 in ids
    ensures forall i :: 0 <= i < |ids| ==> ids[i] < r
  {
    if ids == [] then 1
    else
      var front := ids[..|ids| - 1];
      var last := ids[|ids| - 1];
      assert forall i :: 0 <= i < |ids| - 1 ==> ids[i] == front[i];
      if front == [] || last >= FreshId(front) then last + 1
      else
        assert FreshId(front) - 1 in front;
        FreshId(front)
  }

  // ---------------------------------------------------------------------------
  // Generic table scans
  // ---------------------------------------------------------------------------

  /** `.filter(...).first()`: the position of the first row satisfying `p`, in table order. */
  function FirstIndex<T>(xs: seq<T>, p: T -> bool): (r: Option<nat>)
    ensures r.Some? ==> r.value < |xs| && p(xs[r.value])
    ensures r.Some? ==> forall j :: 0 <= j < r.value ==> !p(xs[j])
    ensures r.None? <==> forall j :: 0 <= j < |xs| ==> !p(xs[j])
  {
    if xs == [] then None
    else if p(xs[0]) then Some(0)
    else
      match FirstIndex(xs[1..], p)
      case None => None
      case Some(k) => Some(k + 1)
  }

  /** `.filter(...).all()`: the rows satisfying `p`, each as often as it occurs in the table. */
  function Filter<T(==,!new)>(xs: seq<T>, p: T -> bool): (r: seq<T>)
    ensures |r| <= |xs|
    ensures forall x :: x in r <==> x in xs && p(x)
  {
    if xs == [] then []
    else
      assert xs == [xs[0]] + xs[1..];
      (if p(xs[0]) then [xs[0]] else []) + Filter(xs[1..], p)
  }

  /** Filtering keeps table order: the rows of a prefix come before those of the rest. */
  lemma {:induction false} FilterAppend<T(!new)>(a: seq<T>, b: seq<T>, p: T -> bool)
    ensures Filter(a + b, p) == Filter(a, p) + Filter(b, p)
  {
    if a == [] {
      assert a + b == b;
    } else {
      assert (a + b)[1..] == a[1..] + b;
      assert (a + b)[0] == a[0];
      FilterAppend(a[1..], b, p);
    }
  }

  /** Filtering keeps each row satisfying `p` as many times as the table holds it, and no other row. */
  lemma {:induction false} FilterCounts<T(!new)>(xs: seq<T>, p: T -> bool)
    ensures forall x :: multiset(Filter(xs, p))[x] == if p(x) then multiset(xs)[x] else 0
  {
    if xs != [] {
      FilterCounts(xs[1..], p);
      assert xs == [xs[0]] + xs[1..];
    }
  }

  // ---------------------------------------------------------------------------
  // Query resolvers
  // ---------------------------------------------------------------------------

  /** `resolve_students` / `resolve_courses` return whole tables; these are the tables themselves. */
  function AllStudents(ss: seq<Student>): (r: seq<Student>)
    ensures |r| == |ss| && forall k :: 0 <= k < |r| ==> r[k] == ss[k]
    ensures forall id :: id in StudentIds(r) <==> StudentById(ss, id).Some?
  {
    ss
  }

  function AllCourses(cs: seq<Course>): (r: seq<Course>)
    ensures |r| == |cs| && forall k :: 0 <= k < |r| ==> r[k] == cs[k]
    ensures forall id :: id in CourseIds(r) <==> CourseById(cs, id).Some?
  {
    cs
  }

  function StudentIndex(ss: seq<Student>, id: int): (r: Option<nat>)
    ensures r.Some? ==> r.value < |ss| && ss[r.value].id == id
    ensures r.None? <==> id !in StudentIds(ss)
  {
    FirstIndex(ss, (s: Student) => s.id == id)
  }

  function CourseIndex(cs: seq<Course>, id: int): (r: Option<nat>)
    ensures r.Some? ==> r.value < |cs| && cs[r.value].id == id
    ensures r.None? <==> id !in CourseIds(cs)
  {
    FirstIndex(cs, (c: Course) => c.id == id)
  }

  /** `resolve_student`: the row with that id, or nothing when no row has it. */
  function StudentById(ss: seq<Student>, id: int): (r: Option<Student>)
    ensures r.Some? ==> r.value in ss && r.value.id == id
    ensures r.None? <==> id !in StudentIds(ss)
  {
    match StudentIndex(ss, id)
    case None => None
    case Some(i) => Some(ss[i])
  }

  /** `resolve_course`: the row with that id, or nothing when no row has it. */
  function CourseById(cs: seq<Course>, id: int): (r: Option<Course>)
    ensures r.Some? ==> r.value in cs && r.value.id == id
    ensures r.None? <==> id !in CourseIds(cs)
  {
    match CourseIndex(cs, id)
    case None => None
    case Some(i) => Some(cs[i])
  }

  /** With unique ids, looking a row's id up yields that very row. */
  lemma {:induction false} StudentByIdFindsRow(ss: seq<Student>, i: nat)
    requires Distinct(StudentIds(ss))
    requires i < |ss|
    ensures StudentById(ss, ss[i].id) == Some(ss[i])
  {
    assert StudentIds(ss)[i] == ss[i].id;
  }

  /** `resolve_students_by_name`: the students whose name contains `name`, ignoring case. */
  function StudentsByName(ss: seq<Student>, name: string): (r: seq<Student>)
    ensures forall s :: s in r <==> s in ss && ContainsIgnoreCase(s.name, name)
    ensures forall s :: multiset(r)[s] == if ContainsIgnoreCase(s.name, name) then multiset(ss)[s] else 0
  {
    FilterCounts(ss, (s: Student) => ContainsIgnoreCase(s.name, name));
    Filter(ss, (s: Student) => ContainsIgnoreCase(s.name, name))
  }

  /** `course.students`: the students linked to course `courseId`, in table order. */
  function EnrolledIn(ss: seq<Student>, courseId: int): (r: seq<Student>)
    ensures forall s :: s in r <==> s in ss && courseId in s.courses
  {
    Filter(ss, (s: Student) => courseId in s.courses)
  }

  /** The name test of `resolve_students_by_course`: `Course.name ILIKE course_name`. */
  predicate NameMatches(c: Course, courseName: string)
  {
    EqualsIgnoreCase(c.name, courseName)
  }

  /**
   * `resolve_students_by_course`: the students of the first course whose name matches
   * `courseName`, or the empty list when no course name matches.
   */
  function StudentsByCourse(ss: seq<Student>, cs: seq<Course>, courseName: string): (r: seq<Student>)
    ensures (forall j :: 0 <= j < |cs| ==> !NameMatches(cs[j], courseName)) ==> r == []
    ensures forall s :: s in r ==>
      s in ss && exists k :: 0 <= k < |cs| && NameMatches(cs[k], courseName) && cs[k].id in s.courses
  {
    match FirstIndex(cs, (c: Course) => NameMatches(c, courseName))
    case None => []
    case Some(k) => EnrolledIn(ss, cs[k].id)
  }

  /** When course `k` is the first whose name matches, the result is exactly its student list. */
  lemma StudentsByCourseFirstMatch(ss: seq<Student>, cs: seq<Course>, courseName: string, k: nat)
    requires k < |cs| && NameMatches(cs[k], courseName)
    requires forall j :: 0 <= j < k ==> !NameMatches(cs[j], courseName)
    ensures StudentsByCourse(ss, cs, courseName) == EnrolledIn(ss, cs[k].id)
  {
    var found := FirstIndex(cs, (c: Course) => NameMatches(c, courseName));
    assert found.Some?;
  }

  // ---------------------------------------------------------------------------
  // Facts linking the mutations' effects to later lookups
  // ---------------------------------------------------------------------------

  /** A row appended under a fresh id is what a lookup of that id finds. */
  lemma {:induction false} LookupAfterAppend(ss: seq<Student>, s: Student)
    requires s.id !in StudentIds(ss)
    ensures StudentById(ss + [s], s.id) == Some(s)
  {
    assert StudentIds(ss + [s])[|ss|] == s.id;
  }

  lemma CourseIdsAppend(cs: seq<Course>, extra: seq<Course>)
    ensures CourseIds(cs + extra) == CourseIds(cs) + CourseIds(extra)
  {
  }

  /** A course appended under an id not used before is what a lookup of that id finds. */
  lemma {:induction false} LookupAfterAppendCourses(cs: seq<Course>, extra: seq<Course>, k: nat)
    requires k < |extra|
    requires Distinct(CourseIds(extra))
    requires forall j :: 0 <= j < |extra| ==> extra[j].id !in CourseIds(cs)
    ensures CourseById(cs + extra, extra[k].id) == Some(extra[k])
  {
    var all := cs + extra;
    CourseIdsAppend(cs, extra);
    assert CourseIds(all)[|cs| + k] == extra[k].id;
  }

  /** Once a row is removed, its id (unique before) is no longer found. */
  lemma {:induction false} LookupAfterRemove(ss: seq<Student>, i: nat)
    requires Distinct(StudentIds(ss))
    requires i < |ss|
    ensures StudentById(ss[..i] + ss[i + 1..], ss[i].id).None?
  {
    var rest := ss[..i] + ss[i + 1..];
    assert forall k :: 0 <= k < |rest| ==> rest[k] == ss[if k < i then k else k + 1];
  }

  /** After a student is linked to a course, that course's student list holds the student. */
  lemma EnrolledAfterLink(ss: seq<Student>, i: nat, courseId: int)
    requires i < |ss|
    ensures var linked := ss[i].(courses := ss[i].courses + [courseId]);
            linked in EnrolledIn(ss[i := linked], courseId)
  {
    var linked := ss[i].(courses := ss[i].courses + [courseId]);
    assert ss[i := linked][i] == linked;
  }

  /** Removing one row keeps the schema's guarantees and drops exactly the rows with that id. */
  lemma {:induction false} RemoveRow(ss: seq<Student>, cs: seq<Course>, i: nat)
    requires WellFormed(ss, cs) && i < |ss|
    ensures var rest := ss[..i] + ss[i + 1..];
            && WellFormed(rest, cs)
            && forall s :: s in rest <==> s in ss && s.id != ss[i].id
  {
    var rest := ss[..i] + ss[i + 1..];
    assert forall k :: 0 <= k < |rest| ==> rest[k] == ss[if k < i then k else k + 1];
    forall s | s in ss && s.id != ss[i].id ensures s in rest {
      var k :| 0 <= k < |ss| && ss[k] == s;
      if k < i { assert rest[k] == s; } else { assert rest[k - 1] == s; }
    }
    forall s | s in rest ensures s in ss && s.id != ss[i].id {
      var k :| 0 <= k < |rest| && rest[k] == s;
      var k' := if k < i then k else k + 1;
      assert StudentIds(ss)[k'] != StudentIds(ss)[i];
    }
  }

  // ---------------------------------------------------------------------------
  // The store and its mutations
  // ---------------------------------------------------------------------------

  /** The database session: both tables, changed in place by the mutations. */
  class Store {
    var students: seq<Student>
    var courses: seq<Course>

    ghost predicate Valid()
      reads this
    {
      WellFormed(students, courses)
    }

    constructor ()
      ensures Valid() && students == [] && courses == []
    {
      students := [];
      courses := [];
    }

    /**
     * `AddStudent.mutate`: inserts one row with the given name and email and no courses,
     * unless the email is already taken, in which case the commit fails and nothing changes.
     */
    method AddStudent(name: string, email: string) returns (r: Result<Student>)
      requires Valid()
      modifies this
      ensures Valid()
      ensures courses == old(courses)
      ensures r.Err? <==> email in Emails(old(students))
      ensures r.Err? ==> students == old(students)
      ensures r.Ok? ==> students == old(students) + [r.value]
      ensures r.Ok? ==> r.value.name == name && r.value.email == email && r.value.courses == []
      ensures r.Ok? ==> r.value.id == FreshId(StudentIds(old(students)))
    {
      if email in Emails(students) {
        return Err(UniqueEmailViolation);
      }
      var student := Student(FreshId(StudentIds(students)), name, email, []);
      assert StudentIds(students + [student]) == StudentIds(students) + [student.id];
      assert Emails(students + [student]) == Emails(students) + [email];
      students := students + [student];
      r := Ok(student);
    }

    /** `AddCourse.mutate`: inserts one course row with the given name. */
    method AddCourse(name: string) returns (course: Course)
      requires Valid()
      modifies this
      ensures Valid()
      ensures students == old(students)
      ensures courses == old(courses) + [course]
      ensures course.name == name && course.id == FreshId(CourseIds(old(courses)))
    {
      course := Course(FreshId(CourseIds(courses)), name);
      assert CourseIds(courses + [course]) == CourseIds(courses) + [course.id];
      courses := courses + [course];
    }

    /**
     * `EnrollStudent.mutate`: when both rows exist, appends the course to the end of the
     * student's course list (again, if already there) and returns the updated student;
     * otherwise returns nothing and changes nothing.
     */
    method EnrollStudent(studentId: int, courseId: int) returns (r: Option<Student>)
      requires Valid()
      modifies this
      ensures Valid()
      ensures courses == old(courses)
      ensures r.Some? <==> studentId in StudentIds(old(students)) && courseId in CourseIds(old(courses))
      ensures r.None? ==> students == old(students)
      ensures r.Some? ==>
        var i := StudentIndex(old(students), studentId).value;
        && r.value == old(students)[i].(courses := old(students)[i].courses + [courseId])
        && students == old(students)[i := r.value]
    {
      var si := StudentIndex(students, studentId);
      var ci := CourseIndex(courses, courseId);
      if si.Some? && ci.Some? {
        var i := si.value;
        var student := students[i].(courses := students[i].courses + [courseId]);
        assert StudentIds(students[i := student]) == StudentIds(students);
        assert Emails(students[i := student]) == Emails(students);
        students := students[i := student];
        return Some(student);
      }
      r := None;
    }

    /**
     * `DeleteStudent.mutate`: reports failure and changes nothing when no row has the id;
     * otherwise removes exactly that row (its enrollments go with it) and reports success.
     */
    method DeleteStudent(id: int) returns (success: bool)
      requires Valid()
      modifies this
      ensures Valid()
      ensures courses == old(courses)
      ensures success <==> id in StudentIds(old(students))
      ensures !success ==> students == old(students)
      ensures success ==>
        var i := StudentIndex(old(students), id).value;
        students == old(students)[..i] + old(students)[i + 1..]
      ensures forall s :: s in students <==> s in old(students) && s.id != id
    {
      var si := StudentIndex(students, id);
      if si.None? {
        return false;
      }
      var i := si.value;
      RemoveRow(students, courses, i);
      students := students[..i] + students[i + 1..];
      success := true;
    }

    /**
     * `UpdateStudentEmail.mutate`: returns no student and changes nothing when no row has the
     * id; otherwise replaces only that student's email, keeping its name and enrollments,
     * unless another student already has the email, in which case the commit fails and
     * nothing changes.
     */
    method UpdateStudentEmail(id: int, email: string) returns (r: Result<Option<Student>>)
      requires Valid()
      modifies this
      ensures Valid()
      ensures courses == old(courses)
      ensures id !in StudentIds(old(students)) ==> r == Ok(None) && students == old(students)
      ensures r.Err? <==>
        id in StudentIds(old(students)) &&
        exists j :: 0 <= j < |old(students)| && old(students)[j].email == email && old(students)[j].id != id
      ensures r.Err? ==> students == old(students)
      ensures r.Ok? && id in StudentIds(old(students)) ==>
        var i := StudentIndex(old(students), id).value;
        && r.value == Some(old(students)[i].(email := email))
        && students == old(students)[i := r.value.value]
    {
      var si := StudentIndex(students, id);
      if si.None? {
        return Ok(None);
      }
      var i := si.value;
      if exists j :: 0 <= j < |students| && students[j].email == email && students[j].id != id {
        return Err(UniqueEmailViolation);
      }
      var student := students[i].(email := email);
      assert StudentIds(students[i := student]) == StudentIds(students);
      assert forall j, k :: 0 <= j < k < |students| && j != i && k != i ==> Emails(students)[j] != Emails(students)[k];
      students := students[i := student];
      r := Ok(Some(student));
    }
  }
}
