/**
 * `populate_data` (data.py): a guarded, one-time initialisation of the catalog store with
 * three students, three courses and six enrollments.
 */
module Seed {
  import opened Wrappers
  import opened Catalog

  const PythonCourse := "Introduction to Python"
  const WebCourse := "Web Development"
  const DatabaseCourse := "Database Systems"

  /*
   * The order in which the commit inserts the sample rows, and so the ids they receive, is
   * fixed by how `add_all` cascades: saving the first student (Alice) follows her courses
   * depth first, reaching Introduction to Python, then its other student Charlie, then
   * Charlie's Database Systems, then its other student Bob, then Bob's Web Development.
   * Each table is inserted in that order: Alice, Charlie, Bob and Python, Database, Web.
   */

  /** The sample courses in insert order, under the ids `base`, `base + 1` and `base + 2`. */
  function SampleCourses(base: int): (r: seq<Course>)
    ensures |r| == 3 && CourseIds(r) == [base, base + 1, base + 2]
    ensures [r[0].name, r[1].name, r[2].name] == [PythonCourse, DatabaseCourse, WebCourse]
  {
    [Course(base, PythonCourse), Course(base + 1, DatabaseCourse), Course(base + 2, WebCourse)]
  }

  /**
   * The sample students in insert order from id `first` on, each linked to two of the sample
   * courses laid out as `SampleCourses(base)`: Alice to Python and Web, Charlie to Python and
   * Database, Bob to Web and Database.
   */
  function SampleStudents(first: int, base: int): (r: seq<Student>)
    ensures |r| == 3 && StudentIds(r) == [first, first + 1, first + 2]
    ensures Emails(r) == ["alice@example.com", "charlie@example.com", "bob@example.com"]
    ensures [r[0].name, r[1].name, r[2].name] == ["Alice Johnson", "Charlie Brown", "Bob Smith"]
    ensures var c := SampleCourses(base);
            && r[0].courses == [c[0].id, c[2].id]
            && r[1].courses == [c[0].id, c[1].id]
            && r[2].courses == [c[2].id, c[1].id]
  {
    [ Student(first, "Alice Johnson", "alice@example.com", [base, base + 2]),
      Student(first + 1, "Charlie Brown", "charlie@example.com", [base, base + 1]),
      Student(first + 2, "Bob Smith", "bob@example.com", [base + 2, base + 1]) ]
  }

  /**
   * The tables `populate_data` leaves behind when started on `ss` and `cs`: unchanged when a
   * student exists; otherwise the sample students and courses, with the ids the insert
   * assigns them, the courses appended after those already present.
   */
  function Seeded(ss: seq<Student>, cs: seq<Course>): (r: (seq<Student>, seq<Course>))
    ensures |ss| > 0 ==> r == (ss, cs)
    ensures |ss| == 0 ==> |r.0| == 3 && |r.1| == |cs| + 3 && r.1[..|cs|] == cs
  {
    if |ss| > 0 then (ss, cs)
    else
      var base := FreshId(CourseIds(cs));
      (SampleStudents(FreshId(StudentIds(ss)), base), cs + SampleCourses(base))
  }

  /** The names of the courses with the given ids, looked up by id; nothing for an unknown id. */
  function CourseNames(ids: seq<int>, cs: seq<Course>): (r: seq<Option<string>>)
    ensures |r| == |ids|
    ensures forall k :: 0 <= k < |ids| ==> (r[k].Some? <==> ids[k] in CourseIds(cs))
  {
    seq(|ids|, k requires 0 <= k < |ids| =>
      match CourseById(cs, ids[k])
      case Some(c) => Some(c.name)
      case None => None)
  }

  /** Seeding an empty student table yields the sample roster and the sample course names. */
  lemma SeededRoster(cs: seq<Course>)
    ensures var (ss', cs') := Seeded([], cs);
            && Emails(ss') == ["alice@example.com", "charlie@example.com", "bob@example.com"]
            && [ss'[0].name, ss'[1].name, ss'[2].name] == ["Alice Johnson", "Charlie Brown", "Bob Smith"]
            && [cs'[|cs|].name, cs'[|cs| + 1].name, cs'[|cs| + 2].name] == [PythonCourse, DatabaseCourse, WebCourse]
  {
  }

  /** Seeding keeps every guarantee of the schema. */
  lemma {:induction false} SeededWellFormed(ss: seq<Student>, cs: seq<Course>)
    requires WellFormed(ss, cs)
    ensures WellFormed(Seeded(ss, cs).0, Seeded(ss, cs).1)
  {
    if |ss| == 0 {
      var base := FreshId(CourseIds(cs));
      var extra := SampleCourses(base);
      CourseIdsAppend(cs, extra);
      assert Distinct(CourseIds(cs + extra));
      assert forall c :: c in [base, base + 1, base + 2] ==> c in CourseIds(cs + extra);
    }
  }

  /** Every sample enrollment names one of the sample courses. */
  lemma SeededLinksResolve(cs: seq<Course>)
    ensures var (ss', cs') := Seeded([], cs);
            forall s, c :: s in ss' && c in s.courses ==> c in CourseIds(cs')
  {
    var base := FreshId(CourseIds(cs));
    var (ss', cs') := Seeded([], cs);
    CourseIdsAppend(cs, SampleCourses(base));
    assert CourseIds(cs') == CourseIds(cs) + [base, base + 1, base + 2];
    forall s, c | s in ss' && c in s.courses ensures c in CourseIds(cs') {
      assert c == base || c == base + 1 || c == base + 2;
    }
  }

  /** Each sample course is what a lookup of its id in the seeded course table finds. */
  lemma {:induction false} SeededCourseLookup(cs: seq<Course>, k: nat)
    requires k < 3
    ensures var extra := SampleCourses(FreshId(CourseIds(cs)));
            CourseById(cs + extra, extra[k].id) == Some(extra[k])
  {
    var extra := SampleCourses(FreshId(CourseIds(cs)));
    assert CourseIds(extra)[k] == extra[k].id;
    LookupAfterAppendCourses(cs, extra, k);
  }

  /** The six sample enrollments, read back through the names of the linked courses. */
  lemma {:induction false} SeededEnrollments(cs: seq<Course>)
    ensures var (ss', cs') := Seeded([], cs);
            && CourseNames(ss'[0].courses, cs') == [Some(PythonCourse), Some(WebCourse)]
            && CourseNames(ss'[1].courses, cs') == [Some(PythonCourse), Some(DatabaseCourse)]
            && CourseNames(ss'[2].courses, cs') == [Some(WebCourse), Some(DatabaseCourse)]
  {
    var base := FreshId(CourseIds(cs));
    var cs' := cs + SampleCourses(base);
    var ss' := SampleStudents(1, base);
    assert Seeded([], cs) == (ss', cs');
    assert [base, base + 1, base + 2] == [cs'[|cs|].id, cs'[|cs| + 1].id, cs'[|cs| + 2].id];
    SampleNames(cs, 0, 2);
    SampleNames(cs, 0, 1);
    SampleNames(cs, 2, 1);
  }

  /** Two sample courses, looked up by id in the seeded course table, give their names. */
  lemma {:induction false} SampleNames(cs: seq<Course>, j: nat, k: nat)
    requires j < 3 && k < 3
    ensures var base := FreshId(CourseIds(cs));
            var extra := SampleCourses(base);
            CourseNames([extra[j].id, extra[k].id], cs + extra) == [Some(extra[j].name), Some(extra[k].name)]
  {
    var extra := SampleCourses(FreshId(CourseIds(cs)));
    SeededCourseLookup(cs, j);
    SeededCourseLookup(cs, k);
    PairNames(cs + extra, extra[j].id, extra[k].id);
  }

  lemma PairNames(cs: seq<Course>, x: int, y: int)
    requires CourseById(cs, x).Some? && CourseById(cs, y).Some?
    ensures CourseNames([x, y], cs) == [Some(CourseById(cs, x).value.name), Some(CourseById(cs, y).value.name)]
  {
  }

  /** Running the seeding twice leaves the same store as running it once. */
  lemma SeededIdempotent(ss: seq<Student>, cs: seq<Course>)
    ensures Seeded(Seeded(ss, cs).0, Seeded(ss, cs).1) == Seeded(ss, cs)
  {
  }

  /**
   * `populate_data`: does nothing when a student already exists; otherwise creates the sample
   * students and courses, links each student to two courses, and adds them all to the store.
   */
  method PopulateData(db: Store)
    requires db.Valid()
    modifies db
    ensures db.Valid()
    ensures (db.students, db.courses) == Seeded(old(db.students), old(db.courses))
  {
    if |db.students| > 0 {
      return;
    }
    // The ids the commit will give the new rows, in the cascade's insert order.
    var first := FreshId(StudentIds(db.students));
    var base := FreshId(CourseIds(db.courses));

    var alice := Student(first, "Alice Johnson", "alice@example.com", []);
    var bob := Student(first + 2, "Bob Smith", "bob@example.com", []);
    var charlie := Student(first + 1, "Charlie Brown", "charlie@example.com", []);

    var python := Course(base, PythonCourse);
    var web := Course(base + 2, WebCourse);
    var databases := Course(base + 1, DatabaseCourse);

    alice := alice.(courses := alice.courses + [python.id, web.id]);
    bob := bob.(courses := bob.courses + [web.id, databases.id]);
    charlie := charlie.(courses := charlie.courses + [python.id, databases.id]);

    assert alice.courses == [base, base + 2];
    assert bob.courses == [base + 2, base + 1];
    assert charlie.courses == [base, base + 1];
    assert [alice, charlie, bob] == SampleStudents(first, base);
    assert [python, databases, web] == SampleCourses(base);
    SeededWellFormed(db.students, db.courses);
    ghost var expected := Seeded(db.students, db.courses);
    assert expected == (SampleStudents(first, base), db.courses + SampleCourses(base));
    db.students := db.students + [alice, charlie, bob];
    db.courses := db.courses + [python, databases, web];
    assert db.students == expected.0;
  }
}
