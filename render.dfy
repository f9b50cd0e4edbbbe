/**
 * The client's markup builders (app.js): the student and course lists, the search result
 * panel and the enrollment dropdown options, as pure functions from the records the GraphQL
 * queries return to the strings assigned to `innerHTML`. The markup is written without the
 * indentation and line breaks the template literals carry between tags.
 */
module Render {
  import opened Wrappers
  import opened Text

  // ---------------------------------------------------------------------------
  // Records as the queries select them
  // ---------------------------------------------------------------------------

  /** `{ id name }`: a course under a student, or an entry of a dropdown query. */
  datatype Named = Named(id: int, name: string)

  /** `{ id name email }`: a student under a course. */
  datatype Member = Member(id: int, name: string, email: string)

  /** A student with its courses; `courses` is None when the field is null or missing. */
  datatype StudentItem = StudentItem(id: int, name: string, email: string, courses: Option<seq<Named>>)

  /** A course with its students; `students` is None when the field is null or missing. */
  datatype CourseItem = CourseItem(id: int, name: string, students: Option<seq<Member>>)

  /** JavaScript's `xs && xs.length > 0`. */
  predicate NonEmpty<T>(xs: Option<seq<T>>)
  {
    xs.Some? && |xs.value| > 0
  }

  // ---------------------------------------------------------------------------
  // Single-quote escaping for the inline `onclick` string literals
  // ---------------------------------------------------------------------------

  function QuoteCount(s: string): nat
  {
    if s == [] then 0 else (if s[0] == '\'' then 1 else 0) + QuoteCount(s[1..])
  }

  /** `s.replace(/'/g, "\\'")`: every single quote gets a backslash in front of it. */
  function EscapeQuotes(s: string): (r: string)
    ensures |r| == |s| + QuoteCount(s)
    ensures forall i :: 0 <= i < |r| && r[i] == '\'' ==> 0 < i && r[i - 1] == '\\'
    ensures QuoteCount(s) == 0 ==> r == s
  {
    if s == [] then []
    else (if s[0] == '\'' then "\\'" else [s[0]]) + EscapeQuotes(s[1..])
  }

  /** Deletes the backslash in front of every single quote: the reading partner of EscapeQuotes. */
  function DropQuoteEscapes(r: string): string
  {
    if |r| >= 2 && r[0] == '\\' && r[1] == '\'' then "'" + DropQuoteEscapes(r[2..])
    else if r == [] then []
    else [r[0]] + DropQuoteEscapes(r[1..])
  }

  /** Dropping the inserted backslashes gives back the name that was escaped. */
  lemma {:induction false} EscapeQuotesRoundTrip(s: string)
    ensures DropQuoteEscapes(EscapeQuotes(s)) == s
  {
    if s != [] {
      var r := EscapeQuotes(s);
      var tail := EscapeQuotes(s[1..]);
      EscapeQuotesRoundTrip(s[1..]);
      if s[0] == '\'' {
        assert r[2..] == tail;
      } else {
        assert r[1..] == tail;
        assert tail == [] || tail[0] != '\'';
      }
      assert s == [s[0]] + s[1..];
    }
  }

  // ---------------------------------------------------------------------------
  // Shared fragments
  // ---------------------------------------------------------------------------

  const ItemCardOpen := "<div class=\"item-card\">"
  const EmptyStateOpen := "<div class=\"empty-state\">"
  const NoStudentsFound := EmptyState("No students found")
  const NoCoursesFound := EmptyState("No courses found")
  const NoStudentsEnrolled := "<p style=\"color: #999; font-style: italic;\">No students enrolled</p>"
  const NotEnrolledAnywhere := "<p style=\"color: #999; font-style: italic;\">Not enrolled in any courses</p>"
  const NoStudentWithId := EmptyState("No student found with that ID")
  const NoStudentsWithName := EmptyState("No students found with that name")
  const NoCoursesWithName := EmptyState("No courses found with that name")

  /** An empty-state placeholder with the given text; every placeholder opens the same way. */
  function EmptyState(text: string): (r: string)
    ensures StartsWith(r, EmptyStateOpen)
  {
    Parts(EmptyStateOpen, text, "</div>");
    EmptyStateOpen + text + "</div>"
  }

  /** Markup that opens with an item card is never an empty-state placeholder. */
  lemma CardIsNotPlaceholder(r: string, placeholder: string)
    requires StartsWith(r, ItemCardOpen) && StartsWith(placeholder, EmptyStateOpen)
    ensures r != placeholder
  {
    assert r[12] == ItemCardOpen[12] == 'i';
    assert placeholder[12] == EmptyStateOpen[12] == 'e';
  }

  // ---------------------------------------------------------------------------
  // displayStudents
  // ---------------------------------------------------------------------------

  function CourseLine(c: Named): string
  {
    "<li>" + c.name + "</li>"
  }

  const CoursesBlockOpen := "<div class=\"courses-enrolled\"><strong>Enrolled Courses:</strong><ul>"
  const ListClose := "</ul></div>"

  /** The enrolled-courses block of a student card: present only for a non-empty course list. */
  function EnrolledCourses(courses: Option<seq<Named>>): (r: string)
    ensures r == "" <==> !NonEmpty(courses)
  {
    if NonEmpty(courses) then CoursesBlockOpen + MapConcat(CourseLine, courses.value) + ListClose
    else ""
  }

  /** The `onclick` handler of a student's Edit button; the name is quote-escaped, the email is not. */
  function EditStudentCall(id: int, name: string, email: string): string
  {
    "editStudent(" + IntToString(id) + ", '" + EscapeQuotes(name) + "', '" + email + "')"
  }

  const ItemInfoOpen := "<div class=\"item-info\">"

  /** The bold name line of a card. */
  function NameLine(name: string): string
  {
    "<strong>" + name + "</strong>"
  }

  /** The id line of a card, the id written in decimal. */
  function IdLine(id: int): string
  {
    "<p>ID: " + IntToString(id) + "</p>"
  }

  /** The email line of a student card. */
  function EmailLine(email: string): string
  {
    "<p>Email: " + email + "</p>"
  }

  /** The opening of every card, up to its name line. */
  function CardHead(): (r: string)
    ensures StartsWith(r, ItemCardOpen)
  {
    StartsWithAppend(ItemCardOpen, ItemInfoOpen, ItemCardOpen);
    ItemCardOpen + ItemInfoOpen
  }

  /** A name line after the card opening occurs in it, and the card opening still leads. */
  lemma HeadThen(name: string)
    ensures IsSubstring(name, CardHead() + name)
    ensures StartsWith(CardHead() + name, ItemCardOpen)
  {
    var head := CardHead();
    Parts(head, name, "");
    assert head + name + "" == head + name;
    StartsWithTrans(head + name, head, ItemCardOpen);
  }

  /** A student card up to its course block: it opens the card and shows name, id and email. */
  function StudentInfo(s: StudentItem): (r: string)
    ensures StartsWith(r, ItemCardOpen)
    ensures IsSubstring(NameLine(s.name), r)
    ensures IsSubstring(IdLine(s.id), r)
    ensures IsSubstring(EmailLine(s.email), r)
  {
    var name := NameLine(s.name);
    var front := CardHead() + name;
    var r := front + IdLine(s.id) + EmailLine(s.email);
    Parts(front, IdLine(s.id), EmailLine(s.email));
    HeadThen(name);
    SubstringTrans(name, front, r);
    StartsWithTrans(r, front, ItemCardOpen);
    r
  }

  const ActionsOpen := "</div><div class=\"item-actions\"><button class=\"edit-btn\" onclick=\""
  const ActionsClose := "\">Edit</button></div></div>"

  /** A student card after its course block: the Edit button with the student's edit call. */
  function StudentActions(s: StudentItem): (r: string)
    ensures IsSubstring(EditStudentCall(s.id, s.name, s.email), r)
  {
    var call := EditStudentCall(s.id, s.name, s.email);
    Parts(ActionsOpen, call, ActionsClose);
    ActionsOpen + call + ActionsClose
  }

  /**
   * A student's card: it shows the name, id and email, carries the Edit call, and has a
   * course block only when the student has courses.
   */
  function StudentCard(s: StudentItem): (r: string)
    ensures StartsWith(r, ItemCardOpen)
    ensures IsSubstring(NameLine(s.name), r)
    ensures IsSubstring(IdLine(s.id), r)
    ensures IsSubstring(EmailLine(s.email), r)
    ensures IsSubstring(EditStudentCall(s.id, s.name, s.email), r)
    ensures !NonEmpty(s.courses) ==> r == StudentInfo(s) + StudentActions(s)
  {
    var info := StudentInfo(s);
    var actions := StudentActions(s);
    var r := info + EnrolledCourses(s.courses) + actions;
    Parts(info, EnrolledCourses(s.courses), actions);
    StartsWithTrans(r, info, ItemCardOpen);
    SubstringTrans(NameLine(s.name), info, r);
    SubstringTrans(IdLine(s.id), info, r);
    SubstringTrans(EmailLine(s.email), info, r);
    SubstringTrans(EditStudentCall(s.id, s.name, s.email), actions, r);
    r
  }

  /** The markup of the students list: the placeholder exactly when there is no student. */
  function DisplayStudents(students: Option<seq<StudentItem>>): (r: string)
    ensures r == NoStudentsFound <==> !NonEmpty(students)
  {
    if !NonEmpty(students) then NoStudentsFound
    else
      var list := students.value;
      var r := MapConcat(StudentCard, list);
      assert r == StudentCard(list[0]) + MapConcat(StudentCard, list[1..]);
      StartsWithAppend(StudentCard(list[0]), MapConcat(StudentCard, list[1..]), ItemCardOpen);
      CardIsNotPlaceholder(r, NoStudentsFound);
      r
  }

  /** Every student of a non-empty list gets its card, after the cards of the students before it. */
  lemma {:induction false} DisplayStudentsShowsEach(list: seq<StudentItem>, i: nat)
    requires i < |list|
    ensures IsSubstring(StudentCard(list[i]), DisplayStudents(Some(list)))
    ensures DisplayStudents(Some(list))
            == MapConcat(StudentCard, list[..i]) + StudentCard(list[i]) + MapConcat(StudentCard, list[i + 1..])
  {
    MapConcatHasEach(StudentCard, list, i);
  }

  /** Each course of a student is listed on the student's card. */
  lemma {:induction false} StudentCardListsCourses(s: StudentItem, k: nat)
    requires s.courses.Some? && k < |s.courses.value|
    ensures IsSubstring(CourseLine(s.courses.value[k]), StudentCard(s))
  {
    var list := s.courses.value;
    var line := CourseLine(list[k]);
    MapConcatHasEach(CourseLine, list, k);
    SubstringInside(line, CoursesBlockOpen, MapConcat(CourseLine, list), ListClose);
    assert EnrolledCourses(s.courses) == CoursesBlockOpen + MapConcat(CourseLine, list) + ListClose;
    SubstringInside(line, StudentInfo(s), EnrolledCourses(s.courses), StudentActions(s));
  }

  // ---------------------------------------------------------------------------
  // displayCourses
  // ---------------------------------------------------------------------------

  function MemberLine(m: Member): string
  {
    "<li>" + m.name + " (" + m.email + ")</li>"
  }

  /** `Enrolled Students (n):` with the number of students written out. */
  function EnrolledHeading(n: nat): string
  {
    Counted("<strong>Enrolled Students (", n, "):</strong>")
  }

  /** The enrolled-students block of a course card: the counted list, or the "No students enrolled" line. */
  function EnrolledStudents(students: Option<seq<Member>>): (r: string)
    ensures !NonEmpty(students) ==> r == NoStudentsEnrolled
    ensures NonEmpty(students) ==>
      StartsWith(r, "<div class=\"courses-enrolled\">" + EnrolledHeading(|students.value|))
  {
    if NonEmpty(students) then
      var open := "<div class=\"courses-enrolled\">" + EnrolledHeading(|students.value|);
      var r := open + "<ul>" + MapConcat(MemberLine, students.value) + ListClose;
      assert r == open + ("<ul>" + MapConcat(MemberLine, students.value) + ListClose);
      StartsWithAppend(open, "<ul>" + MapConcat(MemberLine, students.value) + ListClose, open);
      r
    else NoStudentsEnrolled
  }

  /** The heading tells the number of enrolled students: two different counts never share a heading. */
  lemma EnrolledHeadingCount(m: nat, n: nat)
    requires EnrolledHeading(m) == EnrolledHeading(n)
    ensures m == n
  {
    CountedInjective("<strong>Enrolled Students (", "):</strong>", m, n);
  }

  /** The `onclick` handler of a course's Edit button, with the name quote-escaped. */
  function EditCourseCall(id: int, name: string): string
  {
    "editCourse(" + IntToString(id) + ", '" + EscapeQuotes(name) + "')"
  }

  /** A course card up to its student block: it opens the card and shows name and id. */
  function CourseInfo(c: CourseItem): (r: string)
    ensures StartsWith(r, ItemCardOpen)
    ensures IsSubstring(NameLine(c.name), r)
    ensures IsSubstring(IdLine(c.id), r)
  {
    var name := NameLine(c.name);
    var front := CardHead() + name;
    var r := front + IdLine(c.id);
    Parts(front, IdLine(c.id), "");
    assert front + IdLine(c.id) + "" == r;
    HeadThen(name);
    SubstringTrans(name, front, r);
    StartsWithTrans(r, front, ItemCardOpen);
    r
  }

  /** A course card after its student block: the Edit button with the course's edit call. */
  function CourseActions(c: CourseItem): (r: string)
    ensures IsSubstring(EditCourseCall(c.id, c.name), r)
  {
    var call := EditCourseCall(c.id, c.name);
    Parts(ActionsOpen, call, ActionsClose);
    ActionsOpen + call + ActionsClose
  }

  /** A course's card: it shows the name and id, the student block, and carries the Edit call. */
  function CourseCard(c: CourseItem): (r: string)
    ensures StartsWith(r, ItemCardOpen)
    ensures IsSubstring(NameLine(c.name), r)
    ensures IsSubstring(IdLine(c.id), r)
    ensures IsSubstring(EnrolledStudents(c.students), r)
    ensures IsSubstring(EditCourseCall(c.id, c.name), r)
  {
    var info := CourseInfo(c);
    var block := EnrolledStudents(c.students);
    var actions := CourseActions(c);
    var r := info + block + actions;
    Parts(info, block, actions);
    StartsWithTrans(r, info, ItemCardOpen);
    SubstringTrans(NameLine(c.name), info, r);
    SubstringTrans(IdLine(c.id), info, r);
    SubstringTrans(EditCourseCall(c.id, c.name), actions, r);
    r
  }

  /** The markup of the courses list: the placeholder exactly when there is no course. */
  function DisplayCourses(courses: Option<seq<CourseItem>>): (r: string)
    ensures r == NoCoursesFound <==> !NonEmpty(courses)
  {
    if !NonEmpty(courses) then NoCoursesFound
    else
      var list := courses.value;
      var r := MapConcat(CourseCard, list);
      assert r == CourseCard(list[0]) + MapConcat(CourseCard, list[1..]);
      StartsWithAppend(CourseCard(list[0]), MapConcat(CourseCard, list[1..]), ItemCardOpen);
      CardIsNotPlaceholder(r, NoCoursesFound);
      r
  }

  /** Every course of a non-empty list gets its card, after the cards of the courses before it. */
  lemma {:induction false} DisplayCoursesShowsEach(list: seq<CourseItem>, i: nat)
    requires i < |list|
    ensures IsSubstring(CourseCard(list[i]), DisplayCourses(Some(list)))
    ensures DisplayCourses(Some(list))
            == MapConcat(CourseCard, list[..i]) + CourseCard(list[i]) + MapConcat(CourseCard, list[i + 1..])
  {
    MapConcatHasEach(CourseCard, list, i);
  }

  // ---------------------------------------------------------------------------
  // displaySearchResults and the not-found placeholders of the searches
  // ---------------------------------------------------------------------------

  /** What a search found: students or courses (the `type` argument of displaySearchResults). */
  datatype Hits = StudentHits(students: seq<StudentItem>) | CourseHits(courses: seq<CourseItem>)

  /** `Search Results (n student(s) found)` / `(n course(s) found)`. */
  function ResultsHeading(n: nat, noun: string): string
  {
    Counted("<h3>Search Results (", n, " " + noun + "(s) found)</h3>")
  }

  /** The results heading tells the number of results. */
  lemma ResultsHeadingCount(m: nat, n: nat, noun: string)
    requires ResultsHeading(m, noun) == ResultsHeading(n, noun)
    ensures m == n
  {
    CountedInjective("<h3>Search Results (", " " + noun + "(s) found)</h3>", m, n);
  }

  function CourseResultLine(c: Named): string
  {
    "<li>" + c.name + " (ID: " + IntToString(c.id) + ")</li>"
  }

  function MemberResultLine(m: Member): string
  {
    "<li>" + m.name + " - " + m.email + " (ID: " + IntToString(m.id) + ")</li>"
  }

  const ResultCardOpen := "<div class=\"search-result-card\">"
  const CourseListOpen := "<div class=\"course-list\"><strong>Enrolled Courses:</strong><ul>"
  const StudentListOpen := "<div class=\"student-list\">"

  /** The heading line of a search-result card. */
  function ResultNameLine(name: string): string
  {
    "<h4>" + name + "</h4>"
  }

  /** The "ID:" line of a search-result card, the id written in decimal. */
  function ResultIdLine(id: int): string
  {
    "<p><strong>ID:</strong> " + IntToString(id) + "</p>"
  }

  /** The "Email:" line of a student's search-result card. */
  function ResultEmailLine(email: string): string
  {
    "<p><strong>Email:</strong> " + email + "</p>"
  }

  /** The top of a search-result card: it opens the card and shows the name and id lines. */
  function ResultHead(name: string, id: int): (r: string)
    ensures StartsWith(r, ResultCardOpen)
    ensures IsSubstring(ResultNameLine(name), r)
    ensures IsSubstring(ResultIdLine(id), r)
  {
    Parts(ResultCardOpen, ResultNameLine(name), ResultIdLine(id));
    ResultCardOpen + ResultNameLine(name) + ResultIdLine(id)
  }

  /** The course block of a student's search-result card: the course list, or "Not enrolled in any courses". */
  function ResultCourses(courses: Option<seq<Named>>): (r: string)
    ensures !NonEmpty(courses) ==> r == NotEnrolledAnywhere
    ensures NonEmpty(courses) ==> StartsWith(r, CourseListOpen)
  {
    if NonEmpty(courses) then
      Parts(CourseListOpen, MapConcat(CourseResultLine, courses.value), ListClose);
      CourseListOpen + MapConcat(CourseResultLine, courses.value) + ListClose
    else NotEnrolledAnywhere
  }

  /** The student block of a course's search-result card: the counted list, or "No students enrolled". */
  function ResultStudents(students: Option<seq<Member>>): (r: string)
    ensures !NonEmpty(students) ==> r == NoStudentsEnrolled
    ensures NonEmpty(students) ==> StartsWith(r, StudentListOpen + EnrolledHeading(|students.value|))
  {
    if NonEmpty(students) then
      var open := StudentListOpen + EnrolledHeading(|students.value|);
      Parts(open, "<ul>" + MapConcat(MemberResultLine, students.value), ListClose);
      open + ("<ul>" + MapConcat(MemberResultLine, students.value)) + ListClose
    else NoStudentsEnrolled
  }

  /**
   * A student's search-result card: the name, id and email lines, then the course block,
   * which says "Not enrolled in any courses" when the student has none.
   */
  function StudentResultCard(s: StudentItem): (r: string)
    ensures StartsWith(r, ResultCardOpen)
    ensures IsSubstring(ResultNameLine(s.name), r)
    ensures IsSubstring(ResultIdLine(s.id), r)
    ensures IsSubstring(ResultEmailLine(s.email), r)
    ensures IsSubstring(ResultCourses(s.courses), r)
    ensures !NonEmpty(s.courses) ==> IsSubstring(NotEnrolledAnywhere, r)
  {
    var head := ResultHead(s.name, s.id);
    var rest := ResultEmailLine(s.email) + ResultCourses(s.courses) + "</div>";
    var r := head + rest;
    Parts2(head, rest);
    Parts(ResultEmailLine(s.email), ResultCourses(s.courses), "</div>");
    StartsWithTrans(r, head, ResultCardOpen);
    SubstringTrans(ResultNameLine(s.name), head, r);
    SubstringTrans(ResultIdLine(s.id), head, r);
    SubstringTrans(ResultEmailLine(s.email), rest, r);
    SubstringTrans(ResultCourses(s.courses), rest, r);
    r
  }

  /**
   * A course's search-result card: the name and id lines, then the student block, headed by
   * the number of enrolled students, or "No students enrolled" when there are none.
   */
  function CourseResultCard(c: CourseItem): (r: string)
    ensures StartsWith(r, ResultCardOpen)
    ensures IsSubstring(ResultNameLine(c.name), r)
    ensures IsSubstring(ResultIdLine(c.id), r)
    ensures IsSubstring(ResultStudents(c.students), r)
    ensures NonEmpty(c.students) ==> IsSubstring(EnrolledHeading(|c.students.value|), r)
    ensures !NonEmpty(c.students) ==> IsSubstring(NoStudentsEnrolled, r)
  {
    var head := ResultHead(c.name, c.id);
    var block := ResultStudents(c.students);
    var r := head + block + "</div>";
    Parts(head, block, "</div>");
    StartsWithTrans(r, head, ResultCardOpen);
    SubstringTrans(ResultNameLine(c.name), head, r);
    SubstringTrans(ResultIdLine(c.id), head, r);
    ResultStudentsHeading(c.students);
    if NonEmpty(c.students) then
      SubstringTrans(EnrolledHeading(|c.students.value|), block, r);
      r
    else r
  }

  /** A non-empty student block shows the heading with the number of students. */
  lemma ResultStudentsHeading(students: Option<seq<Member>>)
    ensures NonEmpty(students) ==> IsSubstring(EnrolledHeading(|students.value|), ResultStudents(students))
  {
    if NonEmpty(students) {
      var heading := EnrolledHeading(|students.value|);
      Parts2(StudentListOpen, heading);
      PrefixIsSubstring(ResultStudents(students), StudentListOpen + heading);
      SubstringTrans(heading, StudentListOpen + heading, ResultStudents(students));
    }
  }

  /** Each course of a found student is listed, with its id, on the student's search-result card. */
  lemma {:induction false} ResultCardListsCourses(s: StudentItem, k: nat)
    requires s.courses.Some? && k < |s.courses.value|
    ensures IsSubstring(CourseResultLine(s.courses.value[k]), StudentResultCard(s))
  {
    var list := s.courses.value;
    var line := CourseResultLine(list[k]);
    var body := MapConcat(CourseResultLine, list);
    MapConcatHasEach(CourseResultLine, list, k);
    Parts(CourseListOpen, body, ListClose);
    SubstringTrans(line, body, CourseListOpen + body + ListClose);
    assert ResultCourses(s.courses) == CourseListOpen + body + ListClose;
    SubstringTrans(line, ResultCourses(s.courses), StudentResultCard(s));
  }

  /** Each enrolled student of a found course is listed, with email and id, on the course's search-result card. */
  lemma {:induction false} ResultCardListsMembers(c: CourseItem, k: nat)
    requires c.students.Some? && k < |c.students.value|
    ensures IsSubstring(MemberResultLine(c.students.value[k]), CourseResultCard(c))
  {
    var list := c.students.value;
    var line := MemberResultLine(list[k]);
    var body := MapConcat(MemberResultLine, list);
    var open := StudentListOpen + EnrolledHeading(|list|);
    MapConcatHasEach(MemberResultLine, list, k);
    Parts2("<ul>", body);
    SubstringTrans(line, body, "<ul>" + body);
    Parts(open, "<ul>" + body, ListClose);
    SubstringTrans(line, "<ul>" + body, open + ("<ul>" + body) + ListClose);
    assert ResultStudents(c.students) == open + ("<ul>" + body) + ListClose;
    SubstringTrans(line, ResultStudents(c.students), CourseResultCard(c));
  }

  /** The search result panel: a heading counting the results, then one card per result in order. */
  function SearchResults(hits: Hits): (r: string)
    ensures hits.StudentHits? ==> StartsWith(r, ResultsHeading(|hits.students|, "student"))
    ensures hits.CourseHits? ==> StartsWith(r, ResultsHeading(|hits.courses|, "course"))
  {
    match hits
    case StudentHits(list) =>
      var h := ResultsHeading(|list|, "student");
      StartsWithAppend(h, MapConcat(StudentResultCard, list), h);
      h + MapConcat(StudentResultCard, list)
    case CourseHits(list) =>
      var h := ResultsHeading(|list|, "course");
      StartsWithAppend(h, MapConcat(CourseResultCard, list), h);
      h + MapConcat(CourseResultCard, list)
  }

  /** Every result gets its card in the panel. */
  lemma {:induction false} SearchResultsShowEach(hits: Hits, i: nat)
    requires i < (if hits.StudentHits? then |hits.students| else |hits.courses|)
    ensures hits.StudentHits? ==> IsSubstring(StudentResultCard(hits.students[i]), SearchResults(hits))
    ensures hits.CourseHits? ==> IsSubstring(CourseResultCard(hits.courses[i]), SearchResults(hits))
  {
    match hits
    case StudentHits(list) =>
      MapConcatHasEach(StudentResultCard, list, i);
      SubstringInside(StudentResultCard(list[i]), ResultsHeading(|list|, "student"), MapConcat(StudentResultCard, list), "");
      assert SearchResults(hits) == ResultsHeading(|list|, "student") + MapConcat(StudentResultCard, list) + "";
    case CourseHits(list) =>
      MapConcatHasEach(CourseResultCard, list, i);
      SubstringInside(CourseResultCard(list[i]), ResultsHeading(|list|, "course"), MapConcat(CourseResultCard, list), "");
      assert SearchResults(hits) == ResultsHeading(|list|, "course") + MapConcat(CourseResultCard, list) + "";
  }

  /** A results panel never reads as a not-found placeholder: their second characters differ. */
  lemma PanelIsNotPlaceholder(r: string, n: nat, noun: string, placeholder: string)
    requires StartsWith(r, ResultsHeading(n, noun))
    requires StartsWith(placeholder, EmptyStateOpen)
    ensures r != placeholder
  {
    assert r[1] == ResultsHeading(n, noun)[1] == 'h';
    assert placeholder[1] == EmptyStateOpen[1] == 'd';
  }

  /** The panel after a search by id: the not-found placeholder for a null student, else a one-result list. */
  function StudentLookupPanel(found: Option<StudentItem>): (r: string)
    ensures found.None? ==> r == NoStudentWithId
    ensures found.Some? ==> StartsWith(r, ResultsHeading(1, "student")) && r != NoStudentWithId
  {
    match found
    case None => NoStudentWithId
    case Some(s) =>
      var r := SearchResults(StudentHits([s]));
      PanelIsNotPlaceholder(r, 1, "student", NoStudentWithId);
      r
  }

  /** The panel after a student name search: the placeholder for a null or empty result, else the results. */
  function StudentNamePanel(found: Option<seq<StudentItem>>): (r: string)
    ensures !NonEmpty(found) ==> r == NoStudentsWithName
    ensures NonEmpty(found) ==> StartsWith(r, ResultsHeading(|found.value|, "student")) && r != NoStudentsWithName
  {
    if !NonEmpty(found) then NoStudentsWithName
    else
      var r := SearchResults(StudentHits(found.value));
      PanelIsNotPlaceholder(r, |found.value|, "student", NoStudentsWithName);
      r
  }

  /** The panel after a course name search: the placeholder for a null or empty result, else the results. */
  function CourseNamePanel(found: Option<seq<CourseItem>>): (r: string)
    ensures !NonEmpty(found) ==> r == NoCoursesWithName
    ensures NonEmpty(found) ==> StartsWith(r, ResultsHeading(|found.value|, "course")) && r != NoCoursesWithName
  {
    if !NonEmpty(found) then NoCoursesWithName
    else
      var r := SearchResults(CourseHits(found.value));
      PanelIsNotPlaceholder(r, |found.value|, "course", NoCoursesWithName);
      r
  }

  // ---------------------------------------------------------------------------
  // Dropdown options (loadEnrollmentDropdowns)
  // ---------------------------------------------------------------------------

  /** The opening of an option whose value is `value`. */
  function OptionOpen(value: string): string
  {
    "<option value=\"" + value + "\">"
  }

  /** The visible label of an entity's option: its name and its id. */
  function OptionCaption(e: Named): string
  {
    e.name + " (ID: " + IntToString(e.id) + ")"
  }

  /** One entity's option: its id as the value, labelled with its name and id. */
  function EntityOption(e: Named): (r: string)
    ensures StartsWith(r, OptionOpen(IntToString(e.id)))
    ensures IsSubstring(OptionCaption(e), r)
    ensures |r| >= 9 && r[|r| - 9..] == "</option>"
  {
    var open := OptionOpen(IntToString(e.id));
    var r := open + OptionCaption(e) + "</option>";
    Parts(open, OptionCaption(e), "</option>");
    assert r[|r| - 9..] == "</option>";
    r
  }

  /** The options of every entity, in input order. */
  function EntityOptions(es: seq<Named>): string
  {
    MapConcat(EntityOption, es)
  }

  /** A select's content: the empty-valued placeholder option, then the entity options. */
  function SelectContent(placeholder: string, options: string): (r: string)
    ensures StartsWith(r, OptionOpen("") + placeholder + "</option>")
  {
    var head := OptionOpen("") + placeholder + "</option>";
    StartsWithAppend(head, options, head);
    head + options
  }

  /** The `i`-th entity's option follows the placeholder and the options of the entities before it. */
  lemma {:induction false} SelectListsEach(placeholder: string, es: seq<Named>, i: nat)
    requires i < |es|
    ensures SelectContent(placeholder, EntityOptions(es))
            == OptionOpen("") + placeholder + "</option>"
               + EntityOptions(es[..i]) + EntityOption(es[i]) + EntityOptions(es[i + 1..])
  {
    MapConcatHasEach(EntityOption, es, i);
  }

  /** An option's value identifies its entity: different ids never give the same option opening. */
  lemma EntityOptionIdentifies(a: Named, b: Named)
    requires OptionOpen(IntToString(a.id)) == OptionOpen(IntToString(b.id))
    ensures a.id == b.id
  {
    var x := OptionOpen(IntToString(a.id));
    var open := "<option value=\"";
    assert |IntToString(a.id)| == |IntToString(b.id)|;
    assert x[|open|..|open| + |IntToString(a.id)|] == IntToString(a.id);
    assert x[|open|..|open| + |IntToString(b.id)|] == IntToString(b.id);
    IntToStringInjective(a.id, b.id);
  }
}
