# Learning-management dashboard: the page logic, modelled and proved in Dafny

This project models the logic inside the event handlers of a mock-data student
dashboard written as React pages. It covers:

- the assignment workspace: status toggles, the draft and its attachments,
  Submit and Hold, and the derived lists and labels (`assignments.dfy`);
- the course quiz state machine and the week accordion (`course_details.dfy`);
- the profile edit buffer and the password-change validator (`profile.dfy`);
- the toast queue (`toasts.dfy`);
- the grade colour classifiers and the credit totals (`grades.dfy`);
- the course catalogue filter (`courses.dfy`);
- the calendar: type colours, per-day events, the upcoming list and the month
  grid loop (`calendar.dfy`).

Two shared modules hold the list primitives the pages use.
`common.dfy` has `filter`, a sum and a map lookup with a default.
`sorting.dfy` has `Array.prototype.sort` with a comparator, modelled as a stable
insertion sort, and `slice(0, n)`.

Each page takes the form of its source:

- React state that a handler replaces with a spread copy becomes a
  datatype plus a transition function.
- The assignment page's state cells become the fields of the class
  `AssignmentsPage`. Each handler is a method that updates those fields
  in place, and its contract ties the new state to a transition function
  on a `PageState` snapshot.
- The loops the source contains are `while` loops with invariants: the
  calendar's row/cell loop and the distinct-course reduce.

Modelling conventions:

- Dates are integer day numbers.
- The inputs the browser would supply are parameters of the model:
  - the `Date.now()` reading and the `URL.createObjectURL` result of each
    picked file;
  - the randomly generated toast id;
  - `daysLeft` and "today";
  - the outcome of evaluating the calculator expression.
- A handler's stale closure is modelled as what it is: it reads the state
  from before the click.
- JavaScript falsy defaults (`x || d`) are modelled explicitly.
- `length` counts UTF-16 code units.

Where the code does not do what its UI evidently intends, the model follows the code:

- Starting a quiz has no check for an empty question list. `CourseDetails.StartQuizFresh`
  therefore proves that the quiz invariant holds exactly when the quiz has a
  question, instead of modelling an error.
- `removeFile` removes every attachment carrying the id, not just one. Ids
  built from a clock reading and a file name can collide
  (`Assignments.RemoveTakesBothOfACollision`).
- Hold, as written, can submit (see Findings).

## Model

| member | source | states |
|---|---|---|
| Assignments.ToUpload | learning-management-system/src/app/assignments/page.tsx:163-175 | the attachment's id is `file-<clock>-<name>`; name, type and size are copied; it has a preview exactly when the MIME type starts with `image/`, and the preview is the object URL |
| Assignments.UploadsOf | learning-management-system/src/app/assignments/page.tsx:162-176 | one attachment per picked file, in selection order |
| Assignments.Uploaded | learning-management-system/src/app/assignments/page.tsx:159-179 | a null file list changes nothing; otherwise the old attachments stay as the prefix and the new ones follow in selection order |
| Assignments.WithoutFile | learning-management-system/src/app/assignments/page.tsx:182-184 | no survivor carries the id, each survivor was there before, and every attachment with another id survives |
| Assignments.WithoutFileOrder | learning-management-system/src/app/assignments/page.tsx:182-184 | removal acts piecewise on a concatenation, so survivors keep their order; removing an id nobody carries is a no-op |
| Assignments.RemoveTakesBothOfACollision | learning-management-system/src/app/assignments/page.tsx:159-184 | two same-named files picked at the same clock reading get one id, and removing it empties the list |
| Assignments.Toggled | learning-management-system/src/app/assignments/page.tsx:187-193 | each assignment with the id flips pending and completed; every other assignment and every other field is unchanged |
| Assignments.ToggleTwice | learning-management-system/src/app/assignments/page.tsx:187-193 | toggling an id twice restores the list |
| Assignments.Submitted | learning-management-system/src/app/assignments/page.tsx:224-233 | each assignment with the id becomes completed with the text and the files; the rest are unchanged |
| Assignments.PendingOf | learning-management-system/src/app/assignments/page.tsx:494 | exactly the pending assignments, each taken from the list |
| Assignments.CompletedOf | learning-management-system/src/app/assignments/page.tsx:495 | exactly the completed assignments, each taken from the list |
| Assignments.StatusPartition | learning-management-system/src/app/assignments/page.tsx:494-495 | the two lists split the multiset of assignments, and their lengths add up to the total |
| Common.FilterSame | learning-management-system/src/app/assignments/page.tsx:494-495 | two filters whose predicates agree on every assignment give the same list |
| Assignments.SubmitCompletes | learning-management-system/src/app/assignments/page.tsx:219-243 | after a submission no pending assignment carries the id, and the completed list holds each submitted record with its text and files |
| Assignments.AllBeforeIsTotalPreorder | learning-management-system/src/app/assignments/page.tsx:687-692 | the "All" comparator is total and transitive, so the sort is well defined |
| Assignments.AllOrderSpec | learning-management-system/src/app/assignments/page.tsx:686-692 | the "All" tab is a permutation of the list, with no completed assignment before a pending one, and ascending due dates within each status |
| Assignments.UpcomingSpec | learning-management-system/src/app/assignments/page.tsx:546-581 | the Upcoming tab is a permutation of the pending list in ascending due date; the deadline card is empty exactly when nothing is pending, and otherwise shows a pending assignment due no later than any other |
| Assignments.GetDueLabel | learning-management-system/src/app/assignments/page.tsx:477-490 | first matching rule: negative gives overdue by the absolute value, 0 due today, 1 due tomorrow, more gives "due in d days" |
| Assignments.DueTones | learning-management-system/src/app/assignments/page.tsx:480-489 | the label is destructive exactly for d ≤ 0, a warning exactly for 1 ≤ d ≤ 3, plain exactly for d > 3 |
| Assignments.Decimal | learning-management-system/src/app/assignments/page.tsx:481 | the day count is written as a non-empty string of decimal digits that spells exactly that count |
| Assignments.DueLabelTexts | learning-management-system/src/app/assignments/page.tsx:480-489 | the label texts for 12 days overdue, today, tomorrow and 3 days |
| Assignments.DistinctCoursesOf | learning-management-system/src/app/assignments/page.tsx:519-522 | every course listed occurs in the list, and every course of the list is listed |
| Assignments.DistinctCoursesUnique | learning-management-system/src/app/assignments/page.tsx:519-522 | no course is listed twice, so the count is at most the number of assignments |
| Assignments.DistinctCourses | learning-management-system/src/app/assignments/page.tsx:519-522 | the accumulating loop computes exactly the first-appearance list of courses |
| Assignments.StoredDraft | learning-management-system/src/app/assignments/page.tsx:199 | the stored draft for the id, or "" when there is none |
| Assignments.OpenAndSymbolFacts | learning-management-system/src/app/assignments/page.tsx:196-206 | opening seeds the draft from the store or "", empties the attachments and opens the dialog; a symbol is appended to the draft and nothing else changes |
| Assignments.PressOutcomes | learning-management-system/src/app/assignments/page.tsx:219-251 | with nothing selected a button changes only the mode. With a selection, Submit completes that assignment with draft and files, stores the draft, empties the attachments and closes the dialog. Hold only stores the draft |
| Assignments.HoldThenReopen | learning-management-system/src/app/assignments/page.tsx:196-250 | holding and then reopening the same assignment brings the draft back |
| Assignments.HoldClickSubmits | learning-management-system/src/app/assignments/page.tsx:764-781 | as written, a Hold click while the mode is still Submit completes the assignment, empties the attachments and closes the dialog |
| Assignments.HoldClickCompletesPending | learning-management-system/src/app/assignments/page.tsx:764-781 | on a fresh page, Hold on a pending assignment completes it as written; the intended Hold leaves it pending |
| Assignments.ToggleRoundTrip | learning-management-system/src/app/assignments/page.tsx:187-193 | two toggles of one id restore the whole page state |
| Assignments.AssignmentsPage.constructor | learning-management-system/src/app/assignments/page.tsx:103-110 | the initial cells: no selection, dialog closed, no stored drafts, empty draft, mode Submit, no attachments |
| Assignments.AssignmentsPage.HandleFileUpload | learning-management-system/src/app/assignments/page.tsx:159-179 | only the attachments change, to `Uploaded` of the old ones |
| Assignments.AssignmentsPage.RemoveFile | learning-management-system/src/app/assignments/page.tsx:182-184 | only the attachments change, to `WithoutFile` of the old ones |
| Assignments.AssignmentsPage.ToggleAssignmentStatus | learning-management-system/src/app/assignments/page.tsx:187-193 | only the assignment list changes, to `Toggled` of the old one |
| Assignments.AssignmentsPage.OpenAssignmentDetails | learning-management-system/src/app/assignments/page.tsx:196-201 | selection, dialog flag, seeded draft and emptied attachments; nothing else |
| Assignments.AssignmentsPage.AddSymbolToAnswer | learning-management-system/src/app/assignments/page.tsx:204-206 | the draft becomes old draft + symbol; nothing else changes |
| Assignments.AssignmentsPage.TypeAnswer | learning-management-system/src/app/assignments/page.tsx:421-425 | the draft becomes the typed text; nothing else changes |
| Assignments.AssignmentsPage.PressCalculatorKey | learning-management-system/src/app/assignments/page.tsx:401-407 | "=" replaces the draft by the evaluation outcome or "Error"; any other key is appended |
| Assignments.AssignmentsPage.HandleSubmit | learning-management-system/src/app/assignments/page.tsx:219-251 | the new state is `AfterSubmit` of the old one: a no-op without a selection, otherwise submit or hold according to the current mode |
| Assignments.AssignmentsPage.PressAsWritten | learning-management-system/src/app/assignments/page.tsx:764-781 | the submit runs with the old mode, and the clicked mode is stored afterwards |
| Assignments.AssignmentsPage.Press | learning-management-system/src/app/assignments/page.tsx:219-251 | the clicked mode is stored and decides the submit |
| Assignments.AssignmentsPage.CloseDetails | learning-management-system/src/app/assignments/page.tsx:738 | only the dialog flag is cleared |
| Assignments.AssignmentsPage.RenderAllTab | learning-management-system/src/app/assignments/page.tsx:686-692 | every render, whichever tab is shown, replaces the assignment state array by its "All" order |
| CourseDetails.StartQuizFresh | learning-management-system/src/components/CourseDetailsPage.tsx:221-229 | a new attempt is at question 0, with nothing selected, no answers and score 0; it satisfies the invariant exactly when the quiz is non-empty |
| CourseDetails.HandleQuizAnswer | learning-management-system/src/components/CourseDetailsPage.tsx:231-242 | a no-op without an attempt or once an answer is selected; otherwise the answer is selected, the question is unchanged, and the score rises by 1 exactly when the answer is correct |
| CourseDetails.FirstAnswerIsFinal | learning-management-system/src/components/CourseDetailsPage.tsx:232 | a second answer to the same question changes nothing |
| CourseDetails.MoveToNextQuestion | learning-management-system/src/components/CourseDetailsPage.tsx:244-260 | with questions left, the next index with the selection cleared; after the last, a report of score over question count and both cells cleared |
| CourseDetails.NextButton | learning-management-system/src/components/CourseDetailsPage.tsx:560-567 | advancing happens only while an answer is selected |
| CourseDetails.AdvanceFacts | learning-management-system/src/components/CourseDetailsPage.tsx:244-260 | advancing preserves the invariant and keeps the score; a final report has 0 ≤ score ≤ question count |
| CourseDetails.CloseQuizDialog | learning-management-system/src/components/CourseDetailsPage.tsx:521-524 | closing the dialog discards the quiz and its state |
| CourseDetails.Step | learning-management-system/src/components/CourseDetailsPage.tsx:221-260 | every user action preserves the invariant, never lowers the running score, and reports only bounded scores |
| CourseDetails.Run | learning-management-system/src/components/CourseDetailsPage.tsx:221-260 | over any sequence of actions the invariant holds and every reported score is between 0 and the question count |
| CourseDetails.TwoQuestionWalkthrough | learning-management-system/src/components/CourseDetailsPage.tsx:221-260 | a concrete two-question run ends with the report 1/2 |
| CourseDetails.ToggleWeekDetails | learning-management-system/src/components/CourseDetailsPage.tsx:201-203 | the expanded week is the toggled one or none, and none exactly when that week was open |
| CourseDetails.ToggleWeekTwice | learning-management-system/src/components/CourseDetailsPage.tsx:201-203 | re-toggling a week just opened collapses it |
| Profile.WithField | learning-management-system/src/app/profile/page.tsx:54-61 | the named field takes the value and every other field is unchanged |
| Profile.HandleEditToggle | learning-management-system/src/app/profile/page.tsx:46-52 | the flag flips; the buffer is saved into `user` only when leaving edit mode |
| Profile.EditRoundTrip | learning-management-system/src/app/profile/page.tsx:46-61 | enter, edit one field, leave: the saved user is the buffer with that field set |
| Profile.HandleInputChange | learning-management-system/src/app/profile/page.tsx:54-61 | only the named field of the buffer changes |
| Profile.WithNotification | learning-management-system/src/app/profile/page.tsx:63-71 | only the named flag changes |
| Profile.HandleNotificationChange | learning-management-system/src/app/profile/page.tsx:63-71 | the named flag becomes the checked value, with indeterminate as false; every other flag, every other buffer field and every other page cell is unchanged |
| Profile.SaveNotifications | learning-management-system/src/app/profile/page.tsx:328 | only the notifications block is copied into `user`; every other field of `user` and every other page cell is unchanged |
| Profile.PasswordFormCycle | learning-management-system/src/app/profile/page.tsx:422 | opening then cancelling equals cancelling; opening then submitting keeps the user cells and leaves the form open exactly on rejection, with the entries kept |
| Profile.HandlePasswordChange | learning-management-system/src/app/profile/page.tsx:73-76 | only the named password entry changes |
| Profile.Utf16Length | learning-management-system/src/app/profile/page.tsx:84 | the UTF-16 length lies between the number of characters and twice that |
| Profile.CheckPassword | learning-management-system/src/app/profile/page.tsx:78-87 | a mismatch exactly when the entries differ; too short exactly when they match and are under 8 code units; accepted exactly when they match and are at least 8 |
| Profile.CurrentPasswordIgnored | learning-management-system/src/app/profile/page.tsx:78-96 | the current password never affects the verdict |
| Profile.HandlePasswordSubmit | learning-management-system/src/app/profile/page.tsx:78-96 | sets the mismatch message or the length message; on acceptance clears the error, closes the form and empties all three entries |
| Profile.CancelPasswordChange | learning-management-system/src/app/profile/page.tsx:398-406 | the form closes, the entries are emptied and the error is cleared |
| Profile.SubmitOutcomes | learning-management-system/src/app/profile/page.tsx:78-96 | the error is empty exactly on acceptance; a rejection keeps the entries and the open form; an acceptance equals Cancel |
| Profile.LengthIsCountedInCodeUnits | learning-management-system/src/app/profile/page.tsx:84-87 | 7 letters are too short, 8 are enough, and two astral characters count 4 |
| Toasts.StoredId | learning-management-system/src/components/ui/use-toast.tsx:45 | a non-empty `props.id` is kept; an absent or empty one is replaced by the generated id |
| Toasts.AddToast | learning-management-system/src/components/ui/use-toast.tsx:44-48 | the list grows by one at the end, the earlier toasts are unchanged, and the new toast carries the props and its id |
| Toasts.Dismiss | learning-management-system/src/components/ui/use-toast.tsx:58-63 | a non-empty id removes every toast with it and keeps the rest; otherwise only the oldest goes, and an empty list stays empty |
| Toasts.DismissByIdOrder | learning-management-system/src/components/ui/use-toast.tsx:58-61 | dismissal by id acts piecewise, so it keeps the order, and is a no-op for an unused id |
| Toasts.AddThenDismissRoundTrip | learning-management-system/src/components/ui/use-toast.tsx:44-55 | the timer's `dismiss(id)` of a fresh, unique id removes exactly the toast just added |
| Toasts.DismissNeverGrows | learning-management-system/src/components/ui/use-toast.tsx:58-63 | no sequence of dismissals lengthens the list |
| Toasts.CloseButtonAsWritten | learning-management-system/src/components/ui/use-toast.tsx:131-133 | the close button drops the first toast, whichever was clicked |
| Toasts.CloseButtonRemovesOldest | learning-management-system/src/components/ui/use-toast.tsx:131-133 | with two toasts, closing the second leaves the second and removes the first |
| Toasts.CloseButton | learning-management-system/src/components/ui/use-toast.tsx:131-133 | the intended close button removes the clicked toast and keeps every toast with another id |
| Grades.GradeColor | learning-management-system/src/app/grades/page.tsx:155-174 | null, empty or "Pending" give muted; a listed grade gets its class; any other string is muted |
| Grades.GradeColorIsListed | learning-management-system/src/app/grades/page.tsx:158-173 | a grade is coloured exactly when it is listed, and every colour shown comes from the table or is muted |
| Grades.PercentageBands | learning-management-system/src/app/grades/page.tsx:176-184 | each colour is exactly the interval between its threshold and the next; null is muted |
| Grades.PercentageBandsMonotone | learning-management-system/src/app/grades/page.tsx:179-183 | a higher percentage never lands in a lower band |
| Grades.CompletedCourses | learning-management-system/src/app/grades/page.tsx:187 | exactly the courses not marked "Pending", each from the list |
| Grades.TotalCreditsAdditive | learning-management-system/src/app/grades/page.tsx:187-188 | the completed list and the credit total are additive over concatenation |
| Grades.TotalCreditsOfOne | learning-management-system/src/app/grades/page.tsx:187-188 | a single course adds its credits, or nothing if pending |
| Grades.OverallCreditsGrowth | learning-management-system/src/app/grades/page.tsx:256 | a further completed course or previous term raises the overall total by exactly its credits; a pending course adds nothing |
| Grades.PreviousTermGrowth | learning-management-system/src/app/grades/page.tsx:466 | one more previous term is one more term completed and exactly its credits more overall; with none, only the current term counts and the total is this term's credits |
| Grades.TotalCreditsBounded | learning-management-system/src/app/grades/page.tsx:187-188 | with non-negative credits the total lies between 0 and the sum over all courses |
| Courses.Lower | learning-management-system/src/app/courses/page.tsx:108-110 | same length, each character lowered |
| Courses.IncludesIsSubstring | learning-management-system/src/app/courses/page.tsx:108-110 | the left-to-right scan is true exactly when the needle occurs at some position |
| Courses.IncludesEmpty | learning-management-system/src/app/courses/page.tsx:108-110 | the empty query occurs in every string |
| Courses.FilteredCourses | learning-management-system/src/app/courses/page.tsx:107-117 | exactly the catalogue courses that match all three filters |
| Courses.ShownMeans | learning-management-system/src/app/courses/page.tsx:107-117 | shown exactly when the lowered query occurs in the lowered title, instructor or description, and both selects admit the course ("All" or equal) |
| Courses.FilteredCoursesOrder | learning-management-system/src/app/courses/page.tsx:107 | the result keeps catalogue order (piecewise on concatenation) |
| Courses.DefaultFiltersShowAll | learning-management-system/src/app/courses/page.tsx:101-117 | the initial state lists the whole catalogue unchanged |
| Courses.SearchIgnoresCase | learning-management-system/src/app/courses/page.tsx:108-110 | a query and its lowered form list the same courses |
| Courses.LowerIdempotent | learning-management-system/src/app/courses/page.tsx:108-110 | lowering twice is lowering once |
| Calendar.EventTypeColor | learning-management-system/src/app/calendar/page.tsx:64-73 | the four known types get their class, any other type the default |
| Calendar.EventTypeColorDistinct | learning-management-system/src/app/calendar/page.tsx:64-73 | the default is shown exactly for the unknown types |
| Calendar.DayEvents | learning-management-system/src/app/calendar/page.tsx:137 | exactly the events dated that day |
| Calendar.DayEventsOrder | learning-management-system/src/app/calendar/page.tsx:137 | the day's events appear in catalogue order (piecewise on concatenation) |
| Calendar.DateBeforeIsTotalPreorder | learning-management-system/src/app/calendar/page.tsx:185 | the date comparator is total and transitive |
| Calendar.SortByDateSorted | learning-management-system/src/app/calendar/page.tsx:185 | sorting by date gives ascending dates |
| Calendar.NotPast | learning-management-system/src/app/calendar/page.tsx:184 | exactly the events dated today or later, a sub-multiset of the catalogue |
| Calendar.UpcomingEventsSpec | learning-management-system/src/app/calendar/page.tsx:182-186 | at most five events, none before today, each from the catalogue, in ascending date, and the earliest ones: an eligible event is left out only when the list is full and is no earlier than any shown |
| Calendar.CellFor | learning-management-system/src/app/calendar/page.tsx:133-154 | a cell holds its day's events; it is muted exactly outside the month, highlighted exactly on today within the month, plain otherwise |
| Calendar.WeeksToCover | learning-management-system/src/app/calendar/page.tsx:131 | the week count that covers a span of days |
| Calendar.RenderCells | learning-management-system/src/app/calendar/page.tsx:121-177 | every row has 7 cells; cell (r, c) is the cell of day start + 7r + c; each row starts no later than the end date, and the day after the grid is past it; so the grid has exactly ⌊(end − start)/7⌋ + 1 rows, or none |
| Sorting.SortBySorted | learning-management-system/src/app/assignments/page.tsx:686-692 | under a total preorder the stable sort's result is ordered (and, by its contract, a permutation) |
| Sorting.TakeSortedKeepsLeast | learning-management-system/src/app/calendar/page.tsx:186 | `slice(0, n)` of a sorted list keeps its least elements |

## Left out

- `eval` in `calculateAnswer` is not modelled: the calculator takes the string result of the evaluation, or None when it throws, as a parameter.
- `Date.now()`, `URL.createObjectURL` and `Math.random` are not called: their results are parameters (`PickedFile.clock`, `PickedFile.objectUrl`, the `generated` toast id).
- The toast's `setTimeout` auto-dismiss is not scheduled. `Toasts.AddThenDismissRoundTrip` states what the timer's call does when it fires.
- `getDaysLeft`, `new Date()`, date-fns and `parseISO` are replaced by integer day numbers, with `daysLeft` and "today" as inputs. Month navigation (`addMonths`/`subMonths`) and the week-day header are left out.
- Floating point is left out: GPA, grade points, `toFixed`, KB sizes and bar widths. Percentages are exact reals.
- `alert` is modelled as the returned `Report`. `window.open`, the video and repository dialogs, the dropdown open flags and the document mousedown listener are left out.
- React context plumbing (`useToast`, the missing-provider throw), the toast `action` node and all JSX rendering are left out. That includes `getStatusBadge` and the "Completed on" text.
- The dashboard page, the navigation shell and the root redirect are not part of this model.
- Courses.Lower: case folding is ASCII only, not Unicode `toLowerCase`.
- Grades.GradeColor: a grade that names an `Object.prototype` member (such as "constructor") is treated as unlisted, although the source's object lookup would find an inherited property.
- Calendar.EventTypeColor: the same holds for event types.
- Assignments.AssignmentsPage.RenderAllTab: the sort at page.tsx:686 runs on every render, whichever tab is active, so the state array is re-sorted after every state change; the model offers this as a separate method rather than after each handler. It replaces the sequence field with its sorted copy. It does not model the in-place array sort itself, nor aliasing with other references to that array.
- The preview URLs are never revoked, as in the source; the model says nothing about that resource.

## Findings

| source | as written | input that shows it | evidently intended | confidence | as-written member | corrected member |
|---|---|---|---|---|---|---|
| learning-management-system/src/app/assignments/page.tsx:764-781 | the Submit and Hold buttons call `setSubmitMode(clicked)` and then `handleSubmit()`, which still sees the previous render's `submitMode` | fresh page (mode "submit"), open a pending assignment, click Hold: the assignment is completed with the draft and the dialog closes | the clicked button decides; Hold only stores the draft | not executed | Assignments.HoldClickSubmits | Assignments.PressOutcomes |
| learning-management-system/src/components/ui/use-toast.tsx:131-133 | each toast's close button calls `dismiss()` with no id, which removes the oldest toast | two toasts on screen; close the second one: the first disappears and the second stays | `dismiss(toast.id)` removes the toast clicked | not executed | Toasts.CloseButtonRemovesOldest | Toasts.CloseButton |
