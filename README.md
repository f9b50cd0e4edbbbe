# Student and course catalog, modelled in Dafny

The system is a small student/course catalog. It has three parts:

- A GraphQL server (`schema.py`) over a SQLite database (`models.py`). The database holds a
  `students` table, a `courses` table and the many-to-many enrollment link between them.
- A seeding script (`data.py`).
- A browser client (`app.js`). It lists, adds, edits, enrolls and searches, and it renders
  the replies it receives as HTML.

The project models the following parts:

- **`Catalog`** (`catalog.dfy`): the database as a `Store` class with two tables.
  - Student rows carry their ordered list of linked course ids.
  - Schema guarantees the store keeps: unique ids, unique emails, and enrollments that name
    existing courses.
  - The `Query` resolvers and the module-level name and course filters, as functions.
  - The five registered `mutate` methods, as methods that change the store in place.
  - Ids are given out as SQLite gives rowids: one more than the largest id present, or 1
    for an empty table.
  - A duplicate email makes the commit fail (`UniqueEmailViolation`) and leaves the store
    unchanged.
- **`Seed`** (`seed.dfy`): `populate_data`, a guarded one-time seeding of the store.
- **`Transport`** (`transport.dfy`): the envelope rule of `graphqlRequest`. An `errors` field
  means failure with the first message; otherwise `data` is returned.
- **`Render`** (`render.dfy`): the markup builders as pure functions on the queried records.
  - the student and course lists with their empty-state placeholders;
  - nested enrollment blocks;
  - the counted search-result panel;
  - the dropdown options;
  - the single-quote escaping of names placed in `onclick` handlers.
- **`Page`** (`page.dfy`): the page state as a `View` class whose fields are what the
  handlers write.
  - The handlers are methods. Each asynchronous handler is split at its `await` into a
    `Begin…` part (input validation) and a `…Done(reply)` part.
  - The loads a handler starts afterwards are returned as a list of effects.
  - `FollowUps` says which loads each mutation starts.
- **`Text`** (`text.dfy`): shared string functions.
  - ASCII case folding for `ILIKE`;
  - substring search;
  - `String.prototype.trim` with ECMAScript's exact white-space set;
  - decimal rendering of ids and counts, with its reading partner;
  - the `map(...).join('')` idiom.
- **`Wrappers`** (`wrappers.dfy`): the `Option` datatype.

### Behaviour worth noting

- A student card with no courses renders nothing in place of the course block
  (app.js:109-116). No "none" line is rendered there; only course cards and search cards
  have one.
- Client-side validation covers the id search and both name searches (app.js:397-400,
  433-436, 469-472).
- Not every mutation reloads every list. A successful `updateCourse` reloads the courses and
  the dropdowns (app.js:280-282), but not the students list, whose cards show course names.

## Model

| member | source | states |
|---|---|---|
| Catalog.FreshId | models.py:28 | The id a new row receives exceeds every id in the table. It is 1 for an empty table and otherwise one more than an existing id, so one more than the largest. |
| Catalog.FirstIndex | schema.py:131-133 | `.filter(...).first()`: the result is the first position whose row passes the test. It is None exactly when no row passes. |
| Catalog.Filter | schema.py:122-124 | `.filter(...).all()`: a row is in the result iff it is in the table and passes the test. The result is never longer than the table. |
| Catalog.FilterAppend | schema.py:122-124 | Filtering keeps table order: filtering a concatenation gives the filtered parts concatenated. |
| Catalog.FilterCounts | schema.py:122-124 | Every passing row appears in the result as often as in the table, and no other row appears. |
| Catalog.AllStudents | schema.py:24-25 | `resolve_students` returns the whole table: every row, in table order, and nothing else. An id occurs in it iff a lookup of that id finds a student. |
| Catalog.AllCourses | schema.py:28-29 | `resolve_courses` returns the whole table: every row, in table order, and nothing else. An id occurs in it iff a lookup of that id finds a course. |
| Catalog.StudentIndex | schema.py:77 | The position of a row with the id, or None exactly when no row has the id. |
| Catalog.CourseIndex | schema.py:78 | The position of a course with the id, or None exactly when no course has the id. |
| Catalog.StudentById | schema.py:32-33 | `resolve_student` returns a row of the table that has the requested id. It returns nothing exactly when no row has the id. |
| Catalog.CourseById | schema.py:36-37 | `resolve_course` returns a course of the table that has the requested id. It returns nothing exactly when no course has the id. |
| Catalog.StudentByIdFindsRow | schema.py:32-33 | With unique ids, looking up any row's id returns that very row. |
| Catalog.StudentsByName | schema.py:121-124 | The students whose name contains the query, ignoring case, and only those. Each keeps the number of times the table holds it. |
| Catalog.EnrolledIn | schema.py:138 | `course.students` holds a student iff the student is in the table and linked to that course. |
| Catalog.StudentsByCourse | schema.py:130-138 | When no course name matches (case-insensitively), the result is empty. Every returned student is in the table and is linked to a course whose name matches. |
| Catalog.StudentsByCourseFirstMatch | schema.py:131-138 | When course k is the first whose name matches, the result is exactly course k's student list. |
| Catalog.LookupAfterAppend | schema.py:49-53 | A row added under a fresh id is what a later lookup of that id returns. |
| Catalog.LookupAfterAppendCourses | schema.py:62-66 | Courses appended under ids not used before are what later lookups of those ids return. |
| Catalog.LookupAfterRemove | schema.py:96-97 | After a row with a unique id is deleted, a lookup of that id finds nothing. |
| Catalog.EnrolledAfterLink | schema.py:80-81 | After the course is appended to a student's list, the course's student list contains that student. |
| Catalog.RemoveRow | schema.py:96-97 | Deleting one row keeps unique ids, unique emails and valid links. It removes exactly the rows with that id. |
| Catalog.Store.constructor | models.py:45 | A fresh database has empty tables that meet the schema's guarantees. |
| Catalog.Store.AddStudent | schema.py:49-53 | A taken email fails with the uniqueness error and changes nothing (models.py:30). Otherwise exactly one row is appended: the given name and email, no courses, a fresh id. The course table and existing rows are unchanged, and the guarantees still hold. |
| Catalog.Store.AddCourse | schema.py:62-66 | Exactly one course is appended, with the given name and a fresh id. Students are unchanged. |
| Catalog.Store.EnrollStudent | schema.py:76-84 | Returns a student iff both ids exist. In that case the course id goes at the end of that student's list, again if already present, and no other row changes. Otherwise the store is unchanged. |
| Catalog.Store.DeleteStudent | schema.py:91-98 | Reports success iff the id exists. On success exactly that row is removed, along with its enrollments. On failure nothing changes. The courses are untouched in both cases. |
| Catalog.Store.UpdateStudentEmail | schema.py:107-114 | A missing id returns no student and changes nothing. An email held by another student fails the commit and changes nothing. Otherwise only that student's email changes; name, id and enrollments are kept. |
| Seed.SampleCourses | data.py:15-26 | The three sample courses take consecutive ids in the order the cascading `add_all` inserts them: Introduction to Python, Database Systems, Web Development. |
| Seed.SampleStudents | data.py:10-26 | The three sample students take consecutive ids in insert order (Alice, Charlie, Bob), with their emails. Alice is linked to Python and Web Development, Charlie to Python and Database Systems, Bob to Web Development and Database Systems, each in `extend` order. |
| Seed.Seeded | data.py:3-26 | If any student exists, the tables are unchanged. Otherwise there are exactly three new students and three new courses, appended after the existing courses. |
| Seed.SeededRoster | data.py:10-26 | An empty store is seeded with Alice Johnson, Charlie Brown and Bob Smith in that id order, with their emails, and with the courses Python, Database Systems and Web Development in that id order. |
| Seed.SeededWellFormed | data.py:25-26 | Seeding keeps unique ids, unique emails and valid links. |
| Seed.SeededLinksResolve | data.py:20-22 | Every seeded enrollment names a seeded course. |
| Seed.SeededCourseLookup | data.py:15-17 | Each sample course is what a lookup of its id in the seeded table returns. |
| Seed.SeededEnrollments | data.py:20-22 | Read back by course name through the seeded course table: Alice has Python and Web Development, Charlie has Python and Database Systems, and Bob has Web Development and Database Systems. |
| Seed.SeededIdempotent | data.py:5-7 | Seeding twice leaves the same tables as seeding once. |
| Seed.PopulateData | data.py:3-26 | The store ends as `Seeded` of its old tables: unchanged when a student exists, the sample data otherwise. The schema's guarantees still hold. |
| Transport.Settle | app.js:19-23 | Success iff the body has no `errors` field, returning `data` unchanged. A present list fails with its first message; a present but empty list fails with the TypeError message. A transport failure keeps its message. |
| Transport.FirstErrorDecides | app.js:19-20 | Only the first error matters. The data and the later errors do not change the outcome, which is a failure with the first error's message. |
| Text.LowerChar | schema.py:123 | Case folding for `ILIKE`: the result is never a capital; the k-th capital of the alphabet becomes the k-th small letter; every other character is kept. |
| Text.Lower | schema.py:123 | Lower-casing keeps the length, leaves no capital, keeps every non-capital in place, and turns each capital into the small letter at its place in the alphabet. |
| Text.LowerIdempotent | schema.py:123 | Lower-casing twice is lower-casing once. |
| Text.EmptyTermMatchesEverything | schema.py:123 | An empty search term (`%%`) matches every name. |
| Text.ContainsIgnoresTermCase | schema.py:123 | Whether a name matches does not depend on the case of the search term. |
| Text.TrimStart | app.js:431 | The result is the suffix left after the leading white space, and it does not start with white space. |
| Text.TrimEnd | app.js:431 | The result is the prefix left before the trailing white space, and it does not end with white space. |
| Text.Trim | app.js:431 | The result is a slice of the input with only white space before and after it. It is empty iff the input is all white space; otherwise it neither starts nor ends with white space. Input with no outer white space is returned as is. |
| Text.NatToString | app.js:239 | A count is written as at least one decimal digit, with no leading zero: a text starting with 0 is exactly "0", the text of zero. |
| Text.DecimalRoundTrip | app.js:239 | Reading back the digits written for a count gives the count. |
| Text.NatToStringInjective | app.js:239 | Different counts are written differently. |
| Text.CountedInjective | app.js:507 | A count written between fixed texts determines the count. |
| Text.IntToString | app.js:107 | The text starts with a minus sign iff the id is negative. The remaining characters are all decimal digits, and read back they give the id's magnitude. |
| Text.IntToStringInjective | app.js:377 | Different ids are written differently. |
| Text.MapConcatAppend | app.js:103-122 | `map(f).join('')` of a concatenation is the concatenation of the two joins. |
| Text.MapConcatHasEach | app.js:103-122 | Each element's markup appears in the join, right after the markup of the elements before it. |
| Render.EscapeQuotes | app.js:119 | Escaping lengthens a name by its number of quotes. Every quote in the output follows a backslash. A name without quotes is unchanged. |
| Render.EscapeQuotesRoundTrip | app.js:119 | Deleting the backslash before each quote gives back the original name. The same escaping is used at app.js:247. |
| Render.CardIsNotPlaceholder | app.js:98-99 | Markup that opens with an item card is never an empty-state placeholder. |
| Render.EnrolledCourses | app.js:109-116 | A student card's courses block is empty iff the course list is null or empty. |
| Render.StudentInfo | app.js:104-108 | The top of a student card opens the item-card element and shows the name line, the "ID:" line with the id and the "Email:" line. |
| Render.StudentActions | app.js:118-120 | The foot of a student card holds the Edit button's `editStudent(...)` call. |
| Render.StudentCard | app.js:103-122 | A student card opens with the item-card element and shows the name, id and email lines and the Edit call. With no courses it has no course block: it is the top and the foot alone. |
| Render.DisplayStudents | app.js:95-123 | The students container shows exactly "No students found" iff the list is null or empty. |
| Render.DisplayStudentsShowsEach | app.js:103-122 | Each student of a non-empty list has its card, in input order. |
| Render.StudentCardListsCourses | app.js:109-116 | Every course of a student is listed on the student's card. |
| Render.EnrolledStudents | app.js:237-244 | A null or empty list gives the "No students enrolled" line. Otherwise the block opens with "Enrolled Students (n):", where n is the list length. |
| Render.EnrolledHeadingCount | app.js:239 | The "Enrolled Students (n):" heading determines n. |
| Render.CourseInfo | app.js:233-236 | The top of a course card opens the item-card element and shows the name line and the "ID:" line with the id. |
| Render.CourseActions | app.js:246-248 | The foot of a course card holds the Edit button's `editCourse(...)` call. |
| Render.CourseCard | app.js:232-250 | A course card opens with the item-card element and shows the name and id lines, the enrolled-students block and the Edit call. |
| Render.DisplayCourses | app.js:224-251 | The courses container shows exactly "No courses found" iff the list is null or empty. |
| Render.DisplayCoursesShowsEach | app.js:232-250 | Each course of a non-empty list has its card, in input order. |
| Render.ResultsHeadingCount | app.js:507 | The "Search Results (n …(s) found)" heading determines n (also at app.js:526). |
| Render.ResultHead | app.js:509-511 | A search-result card opens the card element and shows the `<h4>` name line and the "ID:" line with the id (also app.js:528-530). |
| Render.ResultCourses | app.js:513-520 | A student's course block on a search card is exactly "Not enrolled in any courses" for a null or empty list. Otherwise it opens the "Enrolled Courses:" list. |
| Render.ResultStudents | app.js:531-538 | A course's student block on a search card is exactly "No students enrolled" for a null or empty list. Otherwise it opens with "Enrolled Students (n):", where n is the list length. |
| Render.StudentResultCard | app.js:509-521 | A student's search card opens the card and shows the name, ID and Email lines and the course block, so "Not enrolled in any courses" when the student has no courses. |
| Render.CourseResultCard | app.js:528-539 | A course's search card opens the card and shows the name and ID lines and the student block: "Enrolled Students (n):" with the list length when there are students, "No students enrolled" otherwise. |
| Render.ResultStudentsHeading | app.js:533 | A non-empty student block on a course search card shows the heading with the number of students. |
| Render.ResultCardListsCourses | app.js:517 | Every course of a found student is listed, with its id, on the student's search card. |
| Render.ResultCardListsMembers | app.js:535 | Every enrolled student of a found course is listed, with email and id, on the course's search card. |
| Render.SearchResults | app.js:502-543 | The panel opens with a heading whose count equals the number of results, student or course. |
| Render.SearchResultsShowEach | app.js:508-522 | Every result, student or course (app.js:527-540), has its card in the panel. |
| Render.StudentLookupPanel | app.js:419-424 | A null student gives exactly "No student found with that ID". A found student gives a one-result panel. |
| Render.StudentNamePanel | app.js:455-460 | A null or empty result gives exactly "No students found with that name". Otherwise the panel counts the results. |
| Render.CourseNamePanel | app.js:491-496 | A null or empty result gives exactly "No courses found with that name". Otherwise the panel counts the results. |
| Render.EntityOption | app.js:376-382 | An entity's option has the entity's id as its value, shows the label "name (ID: id)" and ends by closing the option. |
| Render.SelectContent | app.js:384-387 | A select's content starts with the empty-valued placeholder option. |
| Render.SelectListsEach | app.js:376-387 | After the placeholder, one option per entity follows, in input order. |
| Render.EntityOptionIdentifies | app.js:377 | An option's value determines the entity's id. |
| Page.SuccessMessage | app.js:63 | The success banner names the kind of record ("Student" or "Course") and ends in " successfully!" (also app.js:154, 192, 279, 312, 344). |
| Page.SuccessMessageNamesMutation | app.js:63 | The six success texts are pairwise different, so the banner tells which mutation succeeded (also app.js:154, 192, 279, 312, 344). |
| Page.FollowUps | app.js:62-66 | After success, an add or update starts two loads: its own entity's list first, then the dropdowns (also app.js:153-157, 191-195, 278-282). Enroll and unenroll (app.js:311-315, 343-347) reload students and courses but not the dropdowns. |
| Page.CheckedStudentId | app.js:395-400 | An id that did not parse, or zero, is refused. Any other id is sent unchanged. |
| Page.CheckedSearchTerm | app.js:431-436 | Input that is all white space is refused. Otherwise the trimmed, non-empty text is sent (also app.js:467-472). |
| Page.SearchTermIgnoresPadding | app.js:431 | Adding white space around the input never changes what a name search sends. |
| Page.View.ShowMessage | app.js:31-35 | The banner shows the message, has class "message " plus the kind (default "success"), and is visible. Nothing else changes. |
| Page.View.Request | app.js:19-26 | The outcome follows the envelope rule. A failure shows "Error: " plus the message in error style. A success leaves the page unchanged. |
| Page.View.EditStudent | app.js:125-129 | The three edit inputs receive the id, name and email, and the panel becomes visible. Nothing else changes. |
| Page.View.EditCourse | app.js:253-256 | The two course edit inputs receive the id and name, and the panel becomes visible. Nothing else changes. |
| Page.View.CancelEdit | app.js:163-171 | "student" or "course" hides only that panel and resets its form: the name and email inputs are emptied, the hidden id input keeps its value. Any other kind changes nothing. |
| Page.View.AddStudentDone | app.js:61-69 | Success shows the success banner, clears the form and returns the loads. Failure shows the error banner only and returns no loads. |
| Page.View.UpdateStudentDone | app.js:152-160 | Success shows the success banner, closes the student panel (its form reset as by `cancelEdit`) and returns the loads. Failure shows the error banner only and returns no loads. |
| Page.View.AddCourseDone | app.js:190-198 | Success shows the success banner, clears the form and returns the loads. Failure shows the error banner only and returns no loads. |
| Page.View.UpdateCourseDone | app.js:277-285 | Success shows the success banner, closes the course panel (its form reset as by `cancelEdit`) and returns the loads. Failure shows the error banner only and returns no loads. |
| Page.View.EnrollStudentDone | app.js:310-318 | Success shows the success banner, resets the enroll selects and returns the loads. Failure shows the error banner only and returns no loads. |
| Page.View.UnenrollStudentDone | app.js:342-350 | Success shows the success banner, resets the unenroll selects and returns the loads. Failure shows the error banner only and returns no loads. |
| Page.View.LoadStudentsDone | app.js:87-92 | On success the students container shows the rendered list. On failure only the error banner changes. |
| Page.View.LoadCoursesDone | app.js:216-221 | On success the courses container shows the rendered list. On failure only the error banner changes. |
| Page.View.LoadDropdownsDone | app.js:372-390 | The courses reply counts only after the students reply succeeded. If either fails, only the error banner changes. If both lists are present, the enroll and unenroll forms get the same options, each behind its placeholder. A null list changes nothing. |
| Page.View.BeginSearchStudentById | app.js:395-400 | A refused id shows "Please enter a student ID" in error style and sends no request. A valid id is sent and nothing changes. |
| Page.View.SearchStudentByIdDone | app.js:416-427 | On success the search panel shows the found student or the not-found placeholder. On failure only the error banner changes. |
| Page.View.BeginSearchStudentByName | app.js:431-436 | Blank input shows "Please enter a student name" in error style and sends nothing. Otherwise the trimmed name is sent. |
| Page.View.SearchStudentByNameDone | app.js:452-463 | On success the search panel shows the matches or the not-found placeholder. On failure only the error banner changes. |
| Page.View.BeginSearchCourseByName | app.js:467-472 | Blank input shows "Please enter a course name" in error style and sends nothing. Otherwise the trimmed name is sent. |
| Page.View.SearchCourseByNameDone | app.js:488-499 | On success the search panel shows the matches or the not-found placeholder. On failure only the error banner changes. |
| Page.EditButtonCarriesName | app.js:119 | Inside the Edit button's call, the quoted name argument, with its escapes removed, is the student's name. |

## Left out

- HTTP and JSON: `fetch`, `response.json()`, the endpoint URL, the GraphQL documents and their variables (app.js:1-17). A reply is a `Transport.Reply` value: a parsed envelope or the message of a thrown exception.
- Transport.Settle: the message for an empty `errors` list is V8's TypeError wording. Other engines word it differently.
- The DOM: `getElementById`, `innerHTML` parsing, `scrollIntoView` and `event.preventDefault()`. The page is the `Page.View` fields. Form reset is modelled as clearing each input and re-selecting the placeholder option. The forms' markup is not part of this model: the edit panels' id inputs are taken to be hidden inputs, whose default the `.value` assignment rewrites, so a reset keeps the id. All other inputs are assumed to have no default values.
- Timing and concurrency: the 3-second auto-hide of the banner (app.js:37-39), interleaved `await`s and out-of-order replies. The loads a handler starts are returned as effects and are not run.
- `parseInt`: the parsed id is an `Option<int>` parameter, where None stands for NaN.
- `console.error` logging in every `catch` block.
- Markup safety: names and emails are not HTML-escaped, the email in `onclick` is not escaped, and a backslash in a name breaks the literal. No claim is made that the output is valid or safe markup. Page.EditButtonCarriesName reads the literal back only as far as `\'` is concerned.
- Render: the indentation and line breaks between tags in the template literals are not reproduced. The markup functions emit the tags and texts without them.
- Catalog: `ILIKE` is modelled with ASCII case folding (SQLite's `lower`). `%` and `_` in the user's search term are treated as literal characters, not as wildcards.
- Catalog: rows come back in table (insertion) order, and `.first()` returns the first such row. SQLite's order without ORDER BY is not modelled further.
- Catalog.Store.AddStudent, Catalog.Store.UpdateStudentEmail: after a failed commit, the session's need for a rollback is not modelled. The model only returns the error and keeps the store unchanged.
- Catalog.Store.DeleteStudent: removing the association rows is modelled by the student's course list leaving with the row. SQLAlchemy's cascade machinery is not modelled.
- Catalog: graphene's camelCase field renaming and the `StudentType`/`CourseType` declarations (schema.py:6-13).
- Catalog: `resolve_students_by_name` and `resolve_students_by_course` are modelled as the functions they are. They are defined at module level, and `students_by_name` is declared inside `UpdateStudentEmail` (schema.py:116-128), so the schema never exposes them.
- Catalog: the operations the client calls but the server does not register are not modelled on the server side: `updateStudent`, `updateCourse`, `unenrollStudent`, `studentsByName`, `coursesByName`. The client handlers for them are modelled.
- app.py (Flask routing) and the engine and table declarations of models.py, beyond the record shapes and the unique email.
- The print statements of data.py.
- Seed: the order in which SQLAlchemy reads a student's links back from the association table is not modelled. A seeded student's course list is kept in `extend` order.
- The page-load handler (app.js:546-550) starts the three loads. It is the constant `Page.OnLoad` and carries no contract.
