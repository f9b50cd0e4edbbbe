/**
 * The page state the client's handlers (app.js) write, and the handlers themselves. The DOM is
 * reduced to the fields the handlers assign: the status banner, the three result containers,
 * the edit panels, the add forms and the two enrollment forms. Each asynchronous handler is
 * split at its `await`: a Begin method holds what runs before the request (input validation),
 * a Done method receives the reply and does what runs after it. The loads a handler starts
 * once it is done are returned as a list of effects, in the order they are started.
 */
module Page {
  import opened Wrappers
  import opened Text
  import opened Transport
  import opened Render

  // ---------------------------------------------------------------------------
  // Page state
  // ---------------------------------------------------------------------------

  /** The `#message` element: its text, its class attribute and whether it is displayed. */
  datatype Banner = Banner(text: string, cssClass: string, visible: bool)

  /** The student edit panel: its three inputs and whether the panel is displayed. */
  datatype StudentEditor = StudentEditor(id: string, name: string, email: string, visible: bool)

  /** The course edit panel: its two inputs and whether the panel is displayed. */
  datatype CourseEditor = CourseEditor(id: string, name: string, visible: bool)

  /** The add-student form's inputs. */
  datatype StudentForm = StudentForm(name: string, email: string)

  /**
   * An enroll or unenroll form: the markup of its two selects and the value each select holds
   * (the empty-valued placeholder option is selected after a reset or a rebuild).
   */
  datatype EnrollmentForm = EnrollmentForm(studentOptions: string, courseOptions: string,
                                           studentChoice: string, courseChoice: string)

  /** Everything the handlers write, as one value. */
  datatype Screen = Screen(banner: Banner, studentsList: string, coursesList: string, searchResults: string,
                           studentEditor: StudentEditor, courseEditor: CourseEditor,
                           studentForm: StudentForm, courseName: string,
                           enrollForm: EnrollmentForm, unenrollForm: EnrollmentForm)

  /** The edit panels as the page loads: hidden, every input empty. */
  const ClearedStudentEditor := StudentEditor("", "", "", false)
  const ClearedCourseEditor := CourseEditor("", "", false)

  /**
   * An edit panel after `cancelEdit`: hidden, and its form reset. A reset text input is empty
   * (the forms declare no default values). The id input is a hidden input, and assigning
   * `.value` to a hidden input rewrites its default, so the reset keeps the last id.
   */
  function ClosedStudentEditor(e: StudentEditor): StudentEditor
  {
    StudentEditor(e.id, "", "", false)
  }

  function ClosedCourseEditor(e: CourseEditor): CourseEditor
  {
    CourseEditor(e.id, "", false)
  }

  // ---------------------------------------------------------------------------
  // Follow-up loads of the mutation handlers
  // ---------------------------------------------------------------------------

  /** The loads a handler can start. */
  datatype Effect = LoadStudents | LoadCourses | LoadEnrollmentDropdowns

  /** The six mutation handlers of the page. */
  datatype Mutation = AddStudent | UpdateStudent | AddCourse | UpdateCourse | EnrollStudent | UnenrollStudent

  /** The mutation changes the student rows or their names. */
  predicate ChangesStudentRows(op: Mutation)
  {
    op == AddStudent || op == UpdateStudent
  }

  /** The mutation changes the course rows or their names. */
  predicate ChangesCourseRows(op: Mutation)
  {
    op == AddCourse || op == UpdateCourse
  }

  /** The mutation changes only which students are linked to which courses. */
  predicate ChangesLinks(op: Mutation)
  {
    op == EnrollStudent || op == UnenrollStudent
  }

  /**
   * The loads a mutation handler starts after a successful reply. A student or course change
   * reloads that list and the dropdowns; an enrollment change reloads both lists, which show
   * the links, but not the dropdowns, which do not.
   */
  function FollowUps(op: Mutation): (r: seq<Effect>)
    ensures |r| == 2 && r[0] != r[1]
    ensures LoadStudents in r <==> ChangesStudentRows(op) || ChangesLinks(op)
    ensures LoadCourses in r <==> ChangesCourseRows(op) || ChangesLinks(op)
    ensures LoadEnrollmentDropdowns in r <==> !ChangesLinks(op)
    ensures LoadEnrollmentDropdowns in r ==> r[1] == LoadEnrollmentDropdowns
  {
    match op
    case AddStudent | UpdateStudent => [LoadStudents, LoadEnrollmentDropdowns]
    case AddCourse | UpdateCourse => [LoadCourses, LoadEnrollmentDropdowns]
    case EnrollStudent | UnenrollStudent => [LoadStudents, LoadCourses]
  }

  /** The record kind a mutation's success banner names. */
  function Subject(op: Mutation): string
  {
    if op.AddCourse? || op.UpdateCourse? then "Course" else "Student"
  }

  /** The past participle a mutation's success banner uses. */
  function Verb(op: Mutation): string
  {
    match op
    case AddStudent => "added"
    case UpdateStudent => "updated"
    case AddCourse => "added"
    case UpdateCourse => "updated"
    case EnrollStudent => "enrolled"
    case UnenrollStudent => "unenrolled"
  }

  /**
   * The banner text of a successful mutation ("Student added successfully!" and so on): it
   * names the kind of record and ends in " successfully!".
   */
  function SuccessMessage(op: Mutation): (r: string)
    ensures StartsWith(r, Subject(op) + " ")
    ensures |r| >= 14 && r[|r| - 14..] == " successfully!"
  {
    var r := Subject(op) + " " + Verb(op) + " successfully!";
    Parts(Subject(op) + " ", Verb(op), " successfully!");
    assert r[|r| - 14..] == " successfully!";
    r
  }

  /** Each mutation has its own success text: the banner tells which operation succeeded. */
  lemma {:induction false} SuccessMessageNamesMutation(a: Mutation, b: Mutation)
    requires SuccessMessage(a) == SuccessMessage(b)
    ensures a == b
  {
    assert |SuccessMessage(a)| == |SuccessMessage(b)|;
  }

  /** The loads started at page load. */
  const OnLoad: seq<Effect> := [LoadStudents, LoadCourses, LoadEnrollmentDropdowns]

  // ---------------------------------------------------------------------------
  // Search input validation
  // ---------------------------------------------------------------------------

  const MissingStudentId := "Please enter a student ID"
  const MissingStudentName := "Please enter a student name"
  const MissingCourseName := "Please enter a course name"

  /**
   * `if (!id)` on the parsed id: a value that did not parse (NaN, here None) and zero are
   * refused; any other id is sent as parsed.
   */
  function CheckedStudentId(parsed: Option<int>): (r: Option<int>)
    ensures r.Some? <==> parsed.Some? && parsed.value != 0
    ensures r.Some? ==> r == parsed && r.value != 0
  {
    match parsed
    case Some(id) => if id != 0 then Some(id) else None
    case None => None
  }

  /**
   * `input.trim()` then `if (!name)`: the trimmed text is sent, and input made only of white
   * space is refused.
   */
  function CheckedSearchTerm(input: string): (r: Option<string>)
    ensures r.None? <==> forall i :: 0 <= i < |input| ==> IsJsSpace(input[i])
    ensures r.Some? ==> r.value == Trim(input) && r.value != []
    ensures r.Some? ==> !IsJsSpace(r.value[0]) && !IsJsSpace(r.value[|r.value| - 1])
  {
    var t := Trim(input);
    if t == [] then None else Some(t)
  }

  /** Surrounding white space never changes what a search sends. */
  lemma {:induction false} SearchTermIgnoresPadding(pad1: string, input: string, pad2: string)
    requires forall i :: 0 <= i < |pad1| ==> IsJsSpace(pad1[i])
    requires forall i :: 0 <= i < |pad2| ==> IsJsSpace(pad2[i])
    ensures CheckedSearchTerm(pad1 + input + pad2) == CheckedSearchTerm(input)
  {
    PadTrim(pad1, input, pad2);
  }

  /** Trimming sees through white space added on either side. */
  lemma {:induction false} PadTrim(pad1: string, input: string, pad2: string)
    requires forall i :: 0 <= i < |pad1| ==> IsJsSpace(pad1[i])
    requires forall i :: 0 <= i < |pad2| ==> IsJsSpace(pad2[i])
    ensures Trim(pad1 + input + pad2) == Trim(input)
  {
    var padded := pad1 + input + pad2;
    assert padded == pad1 + (input + pad2);
    PadTrimStart(pad1, input + pad2);
    var t := TrimStart(input + pad2);
    assert TrimStart(padded) == t;
    PadTrimEnd(t, pad2, input);
    assert Trim(padded) == TrimEnd(t);
    assert Trim(input) == TrimEnd(TrimStart(input));
  }

  lemma {:induction false} PadTrimStart(pad: string, s: string)
    requires forall i :: 0 <= i < |pad| ==> IsJsSpace(pad[i])
    ensures TrimStart(pad + s) == TrimStart(s)
  {
    if pad != [] {
      assert (pad + s)[1..] == pad[1..] + s;
      PadTrimStart(pad[1..], s);
    } else {
      assert pad + s == s;
    }
  }

  /** Trailing white space added after `s` is trimmed away together with `s`'s own. */
  lemma {:induction false} PadTrimEnd(t: string, pad: string, input: string)
    requires t == TrimStart(input + pad)
    requires forall i :: 0 <= i < |pad| ==> IsJsSpace(pad[i])
    ensures TrimEnd(t) == TrimEnd(TrimStart(input))
  {
    if forall i :: 0 <= i < |input| ==> IsJsSpace(input[i]) {
      AllSpaceTrimStart(input + pad);
      AllSpaceTrimStart(input);
    } else {
      var k :| 0 <= k < |input| && !IsJsSpace(input[k]);
      StartKeepsText(input, pad, k);
      TrimEndPad(TrimStart(input), pad);
    }
  }

  lemma {:induction false} AllSpaceTrimStart(s: string)
    requires forall i :: 0 <= i < |s| ==> IsJsSpace(s[i])
    ensures TrimStart(s) == []
  {
    if s != [] {
      AllSpaceTrimStart(s[1..]);
    }
  }

  /** When `input` holds a non-space character, trimming the start of `input + pad` keeps the pad. */
  lemma {:induction false} StartKeepsText(input: string, pad: string, k: nat)
    requires k < |input| && !IsJsSpace(input[k])
    ensures TrimStart(input + pad) == TrimStart(input) + pad
  {
    if IsJsSpace(input[0]) {
      assert (input + pad)[1..] == input[1..] + pad;
      StartKeepsText(input[1..], pad, k - 1);
    }
  }

  lemma {:induction false} TrimEndPad(s: string, pad: string)
    requires forall i :: 0 <= i < |pad| ==> IsJsSpace(pad[i])
    ensures TrimEnd(s + pad) == TrimEnd(s)
  {
    if pad != [] {
      var p := pad[..|pad| - 1];
      assert (s + pad)[..|s + pad| - 1] == s + p;
      TrimEndPad(s, p);
    } else {
      assert s + pad == s;
    }
  }

  // ---------------------------------------------------------------------------
  // The page
  // ---------------------------------------------------------------------------

  class View {
    var banner: Banner
    var studentsList: string
    var coursesList: string
    var searchResults: string
    var studentEditor: StudentEditor
    var courseEditor: CourseEditor
    var studentForm: StudentForm
    var courseName: string
    var enrollForm: EnrollmentForm
    var unenrollForm: EnrollmentForm

    /** The whole page state, for stating what a handler leaves alone. */
    function Snapshot(): Screen
      reads this
    {
      Screen(banner, studentsList, coursesList, searchResults, studentEditor, courseEditor,
             studentForm, courseName, enrollForm, unenrollForm)
    }

    /** An empty page: banner hidden, containers, inputs and selects empty, edit panels hidden. */
    constructor ()
      ensures !banner.visible
      ensures studentsList == "" && coursesList == "" && searchResults == ""
      ensures studentEditor == ClearedStudentEditor && courseEditor == ClearedCourseEditor
      ensures studentForm == StudentForm("", "") && courseName == ""
      ensures enrollForm == EnrollmentForm("", "", "", "") && unenrollForm == enrollForm
    {
      banner := Banner("", "", false);
      studentsList, coursesList, searchResults := "", "", "";
      studentEditor := ClearedStudentEditor;
      courseEditor := ClearedCourseEditor;
      studentForm := StudentForm("", "");
      courseName := "";
      enrollForm := EnrollmentForm("", "", "", "");
      unenrollForm := enrollForm;
    }

    /** `showMessage`: the banner shows the message, styled `message <kind>`; nothing else changes. */
    method ShowMessage(message: string, kind: string := "success")
      modifies this
      ensures banner == Banner(message, "message " + kind, true)
      ensures Snapshot() == old(Snapshot()).(banner := banner)
    {
      banner := banner.(text := message);
      banner := banner.(cssClass := "message " + kind);
      banner := banner.(visible := true);
    }

    /**
     * `graphqlRequest` after the exchange: settles the reply by the envelope rule and, on
     * failure, shows `Error: <message>` in error style.
     */
    method Request<D>(reply: Reply<D>) returns (outcome: Outcome<D>)
      modifies this
      ensures outcome == Settle(reply)
      ensures outcome.Success? ==> Snapshot() == old(Snapshot())
      ensures outcome.Failure? ==>
        Snapshot() == old(Snapshot()).(banner := Banner(ErrorPrefix + outcome.message, "message error", true))
    {
      outcome := Settle(reply);
      if outcome.Failure? {
        ShowMessage(ErrorPrefix + outcome.message, "error");
      }
    }

    /** `editStudent`: fills the edit panel's inputs from the arguments and shows the panel. */
    method EditStudent(id: int, name: string, email: string)
      modifies this
      ensures studentEditor == StudentEditor(IntToString(id), name, email, true)
      ensures Snapshot() == old(Snapshot()).(studentEditor := studentEditor)
    {
      studentEditor := studentEditor.(id := IntToString(id));
      studentEditor := studentEditor.(name := name);
      studentEditor := studentEditor.(email := email);
      studentEditor := studentEditor.(visible := true);
    }

    /** `editCourse`: fills the course edit panel's inputs from the arguments and shows the panel. */
    method EditCourse(id: int, name: string)
      modifies this
      ensures courseEditor == CourseEditor(IntToString(id), name, true)
      ensures Snapshot() == old(Snapshot()).(courseEditor := courseEditor)
    {
      courseEditor := courseEditor.(id := IntToString(id));
      courseEditor := courseEditor.(name := name);
      courseEditor := courseEditor.(visible := true);
    }

    /**
     * `cancelEdit`: hides the panel `kind` names and resets its form, which empties the name
     * and email inputs but keeps the hidden id; any other kind changes nothing.
     */
    method CancelEdit(kind: string)
      modifies this
      ensures kind == "student" ==> Snapshot() == old(Snapshot()).(studentEditor := ClosedStudentEditor(old(studentEditor)))
      ensures kind == "course" ==> Snapshot() == old(Snapshot()).(courseEditor := ClosedCourseEditor(old(courseEditor)))
      ensures kind != "student" && kind != "course" ==> Snapshot() == old(Snapshot())
    {
      if kind == "student" {
        studentEditor := ClosedStudentEditor(studentEditor);
      } else if kind == "course" {
        courseEditor := ClosedCourseEditor(courseEditor);
      }
    }

    // -------------------------------------------------------------------------
    // Mutation handlers, after the reply
    // -------------------------------------------------------------------------

    /** `addStudent` after the reply: on success, banner, cleared form, then the loads. */
    method AddStudentDone<D>(reply: Reply<D>) returns (effects: seq<Effect>)
      modifies this
      ensures Settle(reply).Success? ==>
        && effects == FollowUps(AddStudent)
        && Snapshot() == old(Snapshot()).(banner := Banner(SuccessMessage(AddStudent), "message success", true),
                                          studentForm := StudentForm("", ""))
      ensures Settle(reply).Failure? ==>
        && effects == []
        && Snapshot() == old(Snapshot()).(banner := Banner(ErrorPrefix + Settle(reply).message, "message error", true))
    {
      var outcome := Request(reply);
      if outcome.Failure? {
        return [];
      }
      ShowMessage(SuccessMessage(AddStudent), "success");
      studentForm := StudentForm("", "");
      effects := FollowUps(AddStudent);
    }

    /** `updateStudent` after the reply: on success, banner, closed student panel, then the loads. */
    method UpdateStudentDone<D>(reply: Reply<D>) returns (effects: seq<Effect>)
      modifies this
      ensures Settle(reply).Success? ==>
        && effects == FollowUps(UpdateStudent)
        && Snapshot() == old(Snapshot()).(banner := Banner(SuccessMessage(UpdateStudent), "message success", true),
                                          studentEditor := ClosedStudentEditor(old(studentEditor)))
      ensures Settle(reply).Failure? ==>
        && effects == []
        && Snapshot() == old(Snapshot()).(banner := Banner(ErrorPrefix + Settle(reply).message, "message error", true))
    {
      var outcome := Request(reply);
      if outcome.Failure? {
        return [];
      }
      ShowMessage(SuccessMessage(UpdateStudent), "success");
      CancelEdit("student");
      effects := FollowUps(UpdateStudent);
    }

    /** `addCourse` after the reply: on success, banner, cleared form, then the loads. */
    method AddCourseDone<D>(reply: Reply<D>) returns (effects: seq<Effect>)
      modifies this
      ensures Settle(reply).Success? ==>
        && effects == FollowUps(AddCourse)
        && Snapshot() == old(Snapshot()).(banner := Banner(SuccessMessage(AddCourse), "message success", true),
                                          courseName := "")
      ensures Settle(reply).Failure? ==>
        && effects == []
        && Snapshot() == old(Snapshot()).(banner := Banner(ErrorPrefix + Settle(reply).message, "message error", true))
    {
      var outcome := Request(reply);
      if outcome.Failure? {
        return [];
      }
      ShowMessage(SuccessMessage(AddCourse), "success");
      courseName := "";
      effects := FollowUps(AddCourse);
    }

    /** `updateCourse` after the reply: on success, banner, closed course panel, then the loads. */
    method UpdateCourseDone<D>(reply: Reply<D>) returns (effects: seq<Effect>)
      modifies this
      ensures Settle(reply).Success? ==>
        && effects == FollowUps(UpdateCourse)
        && Snapshot() == old(Snapshot()).(banner := Banner(SuccessMessage(UpdateCourse), "message success", true),
                                          courseEditor := ClosedCourseEditor(old(courseEditor)))
      ensures Settle(reply).Failure? ==>
        && effects == []
        && Snapshot() == old(Snapshot()).(banner := Banner(ErrorPrefix + Settle(reply).message, "message error", true))
    {
      var outcome := Request(reply);
      if outcome.Failure? {
        return [];
      }
      ShowMessage(SuccessMessage(UpdateCourse), "success");
      CancelEdit("course");
      effects := FollowUps(UpdateCourse);
    }

    /** `enrollStudent` after the reply: on success, banner, reset selects, then the loads. */
    method EnrollStudentDone<D>(reply: Reply<D>) returns (effects: seq<Effect>)
      modifies this
      ensures Settle(reply).Success? ==>
        && effects == FollowUps(EnrollStudent)
        && Snapshot() == old(Snapshot()).(banner := Banner(SuccessMessage(EnrollStudent), "message success", true),
                                          enrollForm := old(enrollForm).(studentChoice := "", courseChoice := ""))
      ensures Settle(reply).Failure? ==>
        && effects == []
        && Snapshot() == old(Snapshot()).(banner := Banner(ErrorPrefix + Settle(reply).message, "message error", true))
    {
      var outcome := Request(reply);
      if outcome.Failure? {
        return [];
      }
      ShowMessage(SuccessMessage(EnrollStudent), "success");
      enrollForm := enrollForm.(studentChoice := "", courseChoice := "");
      effects := FollowUps(EnrollStudent);
    }

    /** `unenrollStudent` after the reply: on success, banner, reset selects, then the loads. */
    method UnenrollStudentDone<D>(reply: Reply<D>) returns (effects: seq<Effect>)
      modifies this
      ensures Settle(reply).Success? ==>
        && effects == FollowUps(UnenrollStudent)
        && Snapshot() == old(Snapshot()).(banner := Banner(SuccessMessage(UnenrollStudent), "message success", true),
                                          unenrollForm := old(unenrollForm).(studentChoice := "", courseChoice := ""))
      ensures Settle(reply).Failure? ==>
        && effects == []
        && Snapshot() == old(Snapshot()).(banner := Banner(ErrorPrefix + Settle(reply).message, "message error", true))
    {
      var outcome := Request(reply);
      if outcome.Failure? {
        return [];
      }
      ShowMessage(SuccessMessage(UnenrollStudent), "success");
      unenrollForm := unenrollForm.(studentChoice := "", courseChoice := "");
      effects := FollowUps(UnenrollStudent);
    }

    // -------------------------------------------------------------------------
    // Loads, after the reply
    // -------------------------------------------------------------------------

    /** `loadStudents` after the reply: the students list shows the returned students. */
    method LoadStudentsDone(reply: Reply<Option<seq<StudentItem>>>)
      modifies this
      ensures Settle(reply).Success? ==>
        Snapshot() == old(Snapshot()).(studentsList := DisplayStudents(Settle(reply).data))
      ensures Settle(reply).Failure? ==>
        Snapshot() == old(Snapshot()).(banner := Banner(ErrorPrefix + Settle(reply).message, "message error", true))
    {
      var outcome := Request(reply);
      if outcome.Success? {
        studentsList := DisplayStudents(outcome.data);
      }
    }

    /** `loadCourses` after the reply: the courses list shows the returned courses. */
    method LoadCoursesDone(reply: Reply<Option<seq<CourseItem>>>)
      modifies this
      ensures Settle(reply).Success? ==>
        Snapshot() == old(Snapshot()).(coursesList := DisplayCourses(Settle(reply).data))
      ensures Settle(reply).Failure? ==>
        Snapshot() == old(Snapshot()).(banner := Banner(ErrorPrefix + Settle(reply).message, "message error", true))
    {
      var outcome := Request(reply);
      if outcome.Success? {
        coursesList := DisplayCourses(outcome.data);
      }
    }

    /**
     * `loadEnrollmentDropdowns` after its two replies, awaited one after the other: the courses
     * reply counts only once the students reply has succeeded. With both lists present, the
     * enroll and unenroll forms get the same options, each behind its placeholder; a null list
     * fails inside the handler and changes nothing.
     */
    method LoadDropdownsDone(studentsReply: Reply<Option<seq<Named>>>, coursesReply: Reply<Option<seq<Named>>>)
      modifies this
      ensures Settle(studentsReply).Failure? ==>
        Snapshot() == old(Snapshot()).(banner := Banner(ErrorPrefix + Settle(studentsReply).message, "message error", true))
      ensures Settle(studentsReply).Success? && Settle(coursesReply).Failure? ==>
        Snapshot() == old(Snapshot()).(banner := Banner(ErrorPrefix + Settle(coursesReply).message, "message error", true))
      ensures Settle(studentsReply).Success? && Settle(coursesReply).Success? ==>
        var (students, courses) := (Settle(studentsReply).data, Settle(coursesReply).data);
        if students.None? || courses.None? then Snapshot() == old(Snapshot())
        else
          && enrollForm == EnrollmentForm(SelectContent("Select Student", EntityOptions(students.value)),
                                          SelectContent("Select Course", EntityOptions(courses.value)), "", "")
          && unenrollForm == enrollForm
          && Snapshot() == old(Snapshot()).(enrollForm := enrollForm, unenrollForm := unenrollForm)
    {
      var studentsData := Request(studentsReply);
      if studentsData.Failure? {
        return;
      }
      var coursesData := Request(coursesReply);
      if coursesData.Failure? || studentsData.data.None? || coursesData.data.None? {
        return;
      }
      var studentOptions := EntityOptions(studentsData.data.value);
      var courseOptions := EntityOptions(coursesData.data.value);
      // Replacing a select's options selects its first option, the empty-valued placeholder.
      enrollForm := EnrollmentForm(SelectContent("Select Student", studentOptions), enrollForm.courseOptions, "", enrollForm.courseChoice);
      enrollForm := enrollForm.(courseOptions := SelectContent("Select Course", courseOptions), courseChoice := "");
      unenrollForm := EnrollmentForm(SelectContent("Select Student", studentOptions), unenrollForm.courseOptions, "", unenrollForm.courseChoice);
      unenrollForm := unenrollForm.(courseOptions := SelectContent("Select Course", courseOptions), courseChoice := "");
    }

    // -------------------------------------------------------------------------
    // Searches: validation before the request, the result panel after it
    // -------------------------------------------------------------------------

    /** `searchStudentById` up to the request: the id to send, or the error banner and no request. */
    method BeginSearchStudentById(parsed: Option<int>) returns (request: Option<int>)
      modifies this
      ensures request == CheckedStudentId(parsed)
      ensures request.Some? ==> Snapshot() == old(Snapshot())
      ensures request.None? ==> Snapshot() == old(Snapshot()).(banner := Banner(MissingStudentId, "message error", true))
    {
      request := CheckedStudentId(parsed);
      if request.None? {
        ShowMessage(MissingStudentId, "error");
      }
    }

    /** `searchStudentById` after the reply: the found student, or the not-found placeholder. */
    method SearchStudentByIdDone(reply: Reply<Option<StudentItem>>)
      modifies this
      ensures Settle(reply).Success? ==>
        Snapshot() == old(Snapshot()).(searchResults := StudentLookupPanel(Settle(reply).data))
      ensures Settle(reply).Failure? ==>
        Snapshot() == old(Snapshot()).(banner := Banner(ErrorPrefix + Settle(reply).message, "message error", true))
    {
      var outcome := Request(reply);
      if outcome.Success? {
        searchResults := StudentLookupPanel(outcome.data);
      }
    }

    /** `searchStudentByName` up to the request: the trimmed name to send, or the error banner. */
    method BeginSearchStudentByName(input: string) returns (request: Option<string>)
      modifies this
      ensures request == CheckedSearchTerm(input)
      ensures request.Some? ==> Snapshot() == old(Snapshot())
      ensures request.None? ==> Snapshot() == old(Snapshot()).(banner := Banner(MissingStudentName, "message error", true))
    {
      request := CheckedSearchTerm(input);
      if request.None? {
        ShowMessage(MissingStudentName, "error");
      }
    }

    /** `searchStudentByName` after the reply: the matching students, or the not-found placeholder. */
    method SearchStudentByNameDone(reply: Reply<Option<seq<StudentItem>>>)
      modifies this
      ensures Settle(reply).Success? ==>
        Snapshot() == old(Snapshot()).(searchResults := StudentNamePanel(Settle(reply).data))
      ensures Settle(reply).Failure? ==>
        Snapshot() == old(Snapshot()).(banner := Banner(ErrorPrefix + Settle(reply).message, "message error", true))
    {
      var outcome := Request(reply);
      if outcome.Success? {
        searchResults := StudentNamePanel(outcome.data);
      }
    }

    /** `searchCourseByName` up to the request: the trimmed name to send, or the error banner. */
    method BeginSearchCourseByName(input: string) returns (request: Option<string>)
      modifies this
      ensures request == CheckedSearchTerm(input)
      ensures request.Some? ==> Snapshot() == old(Snapshot())
      ensures request.None? ==> Snapshot() == old(Snapshot()).(banner := Banner(MissingCourseName, "message error", true))
    {
      request := CheckedSearchTerm(input);
      if request.None? {
        ShowMessage(MissingCourseName, "error");
      }
    }

    /** `searchCourseByName` after the reply: the matching courses, or the not-found placeholder. */
    method SearchCourseByNameDone(reply: Reply<Option<seq<CourseItem>>>)
      modifies this
      ensures Settle(reply).Success? ==>
        Snapshot() == old(Snapshot()).(searchResults := CourseNamePanel(Settle(reply).data))
      ensures Settle(reply).Failure? ==>
        Snapshot() == old(Snapshot()).(banner := Banner(ErrorPrefix + Settle(reply).message, "message error", true))
    {
      var outcome := Request(reply);
      if outcome.Success? {
        searchResults := CourseNamePanel(outcome.data);
      }
    }
  }

  /**
   * The name a student card's Edit button hands to `editStudent`: the quoted argument of its
   * `onclick` call, read back as a JavaScript string literal reads `\'`, is the student's name.
   */
  lemma EditButtonCarriesName(s: StudentItem)
    ensures var call := EditStudentCall(s.id, s.name, s.email);
            var open := "editStudent(" + IntToString(s.id) + ", '";
            && call[|open|..|open| + |EscapeQuotes(s.name)|] == EscapeQuotes(s.name)
            && DropQuoteEscapes(call[|open|..|open| + |EscapeQuotes(s.name)|]) == s.name
  {
    var open := "editStudent(" + IntToString(s.id) + ", '";
    var call := EditStudentCall(s.id, s.name, s.email);
    assert call == open + EscapeQuotes(s.name) + ("', '" + s.email + "')");
    EscapeQuotesRoundTrip(s.name);
  }
}
