# testpilot QA platform core, in Dafny

The model covers the parts of the testpilot QA web application that keep or
transform data:

- **The in-memory store** (`MemStorage`, module `Storage`). It has one list of
  rows per table and one id counter per table. It covers:
  - creation with generated ids and timestamps;
  - updates by spread;
  - deletes, with the comment cascade and the test-case cascade;
  - the suite and plan link tables;
  - the filtering, sorting and truncating getters;
  - notification marking.
- **The kanban board drop** (module `Kanban`). A dragged item moves from its
  source column to the end of the target column, with its status set to the
  target.
- **The JUnit uploader page** (module `JUnit`):
  - the results table: filter, then sort, then paginate;
  - the sort toggle and the page-bounds check;
  - the upload form: its guard, the progress ticker and the proposed run name;
  - `formatDuration` below one second, and the badge classes.
- **The demo page's comment handlers** (module `CommentsDemo`): add, reply and
  like on a two-level comment list.
- **The comment section component** (module `CommentSection`):
  - initials;
  - the guards of its add, reply and edit forms;
  - the reply toggle and the owner-only controls.
- **The status badge** (module `StatusBadge`): the title-case label and the
  style mapping.

Shared modules model the JavaScript behaviour the code relies on:

- `Js`: values and truthiness.
- `Text`: `split`, `join`, `trim`, `includes`, ASCII case mapping and
  integer formatting.
- `Seqs`: `filter` and `slice`.
- `Sorting`: the stable `Array.prototype.sort`, consistent comparators, and a
  string order.
- `Comments`: the comment and user records.

How the model represents things:

- **Rows.** A store row is a `map<string, Value>`. Reading a missing key gives
  `Undefined`, as reading a missing property does.
- **Store state.** The store is a class whose table fields the methods reassign.
  Each method states its whole new state as a change to the `State()` snapshot.
  The getters are functions over the fields.
- **Component state.** Component state that handlers update through setters is
  a class: `KanbanBoard`, `ResultsTable`, `UploadForm` and `CommentForm`.
  Handlers that rebuild a list wholesale are functions.
- **External inputs.** The clock (`new Date()`, `Date.now()`) is an integer
  parameter `now`, and `toLocaleDateString()` is a string parameter `today`. A
  parent's callback is a flag saying whether it was passed, and the call it
  would receive is returned. The number of progress-timer firings during an
  upload, and whether the server accepts it, are parameters too.

Where the code and its own interface differ, the model follows
`server/storage.js`:

- `MemStorage.getCommentsByTestCase` returns every comment of the test case,
  replies included. The database implementation
  (server/storage.ts:584-595) returns only top-level comments.
- A caller-supplied `id` is kept as is, and the counter does not move, so it
  can collide with a later generated id. `Storage.SuppliedIdCanCollide`
  exhibits this.

## Model

| member | source | states |
|---|---|---|
| Storage.MemStorage.constructor | server/storage.js:5-36 | every table starts empty and every counter at 1 |
| Storage.Find | server/storage.js:39-49 | the result is the first row whose key equals the value, or none when no row has it |
| Storage.MemStorage.GetUser | server/storage.js:39-41 | the first user with that id, or none |
| Storage.MemStorage.GetUserByUsername | server/storage.js:43-45 | the first user with that username, or none |
| Storage.MemStorage.GetUserByEmail | server/storage.js:47-49 | the first user with that email, or none |
| Storage.NewRow | server/storage.js:51-60 | a created row keeps every input field; a falsy id is replaced by the counter (a string for users), which then advances; a supplied id leaves the counter alone; createdAt and updatedAt default to now |
| Storage.MemStorage.CreateUser | server/storage.js:51-60 | appends the new row to users and advances only the user counter |
| Storage.GeneratedIdIsFresh | server/storage.js:111-120 | when every numeric id is below the counter, a generated id differs from every existing id and the invariant still holds |
| Storage.SuppliedIdCanCollide | server/storage.js:111-120 | a row created with id 1 followed by one with no id gets two rows with id 1 |
| Storage.Merged | server/storage.js:62-78 | a spread update: patch fields win, the other fields stay, updatedAt becomes now |
| Storage.MemStorage.UpsertUser | server/storage.js:62-78 | an existing id is merged in place at its index; otherwise the user is created |
| Storage.Where | server/storage.js:80-82 | the rows with the key equal to the value, in order, and no others |
| Storage.MemStorage.GetUsersByRole | server/storage.js:80-82 | exactly the users with that role, in table order |
| Storage.MemStorage.UpdateUserRole | server/storage.js:84-95 | an unknown id changes nothing and gives none; otherwise only that row changes, gaining the role and updatedAt |
| Storage.MemStorage.UpdateUserPreferences | server/storage.js:97-108 | as for the role, with preferences |
| Storage.MemStorage.CreateTestRun | server/storage.js:111-120 | appends the new run and advances the run counter; a generated id is fresh |
| Storage.MemStorage.GetTestRun | server/storage.js:122-124 | the first run with that id, or none |
| Storage.LimitedLength | server/storage.js:126-136 | the length `slice(0, limit)` keeps: all for no limit or 0, at most the limit when positive, all but the last n when negative |
| Storage.SortAndLimit | server/storage.js:126-136 | the result is sorted, drawn from the rows (a permutation when nothing is cut), of length LimitedLength, and a prefix of the full sort |
| Storage.TimeOrders | server/storage.js:126-136 | newest-first and oldest-first are consistent comparators; being sorted by them means timestamps do not increase (resp. decrease) |
| Storage.MemStorage.GetTestRuns | server/storage.js:126-136 | the first rows of the runs sorted newest first by createdAt, as many as the limit keeps; all of them when nothing is cut |
| Storage.MemStorage.UpdateTestRun | server/storage.js:138-149 | an unknown id changes nothing; otherwise that row is merged and nothing else changes |
| Storage.Without | server/storage.js:151-159 | the result is shorter exactly when some row has the key equal to the value |
| Storage.WithoutExact | server/storage.js:151-159 | the result keeps table order, holds exactly the non-matching rows, and is the identity when nothing matches |
| Storage.MemStorage.DeleteTestRun | server/storage.js:151-159 | removes the run and its results and nothing else; reports whether a run had that id |
| Storage.MemStorage.CreateTestSuite | server/storage.js:162-171 | appends the new suite and advances the suite counter |
| Storage.MemStorage.GetTestSuite | server/storage.js:173-175 | the first suite with that id, or none |
| Storage.MemStorage.GetTestSuites | server/storage.js:177-182 | with a truthy parent id, exactly its children in order; otherwise the whole table |
| Storage.MemStorage.UpdateTestSuite | server/storage.js:184-195 | an unknown id changes nothing; otherwise that row is merged |
| Storage.MemStorage.DeleteTestSuite | server/storage.js:197-205 | removes the suite and its link rows and nothing else |
| Storage.LinkRows | server/storage.js:207-223 | one link row per id, in the order given |
| Storage.CountLinks | server/storage.js:207-223 | the new link rows hold each id as many times as it was given |
| Storage.AddLinksCount | server/storage.js:207-223 | after adding, the owner is linked to each given id exactly as many times as it was given (old links for it are replaced) |
| Storage.AddLinksKeepsOthers | server/storage.js:207-223 | link rows of other owners are kept, in order |
| Storage.MemStorage.AddTestCasesToSuite | server/storage.js:207-223 | every old link except this suite's links to the listed ids, then one new link per id, in order, built by the loop; nothing else changes |
| Storage.RemoveLinksExact | server/storage.js:225-232 | the remaining links keep their order and are exactly those not linking the owner to a listed id |
| Storage.MemStorage.RemoveTestCasesFromSuite | server/storage.js:225-232 | filters the suite links; reports whether anything was removed |
| Storage.LinkedIds | server/storage.js:234-240 | the ids the owner is linked to, and only those |
| Storage.TestCasesFor | server/storage.js:234-240 | the test cases linked to the owner, in table order |
| Storage.MemStorage.GetTestCasesForSuite | server/storage.js:234-240 | exactly the test cases linked to the suite, in table order |
| Storage.MemStorage.CreateTestCase | server/storage.js:243-252 | appends the new test case and advances its counter |
| Storage.MemStorage.GetTestCase | server/storage.js:254-256 | the first test case with that id, or none |
| Storage.MemStorage.GetTestCases | server/storage.js:258-281 | the first rows of the matching test cases (the type, and the lower-cased search text in name, description or rich content) sorted newest first by updatedAt, as many as the limit keeps; all matching ones without a limit |
| Storage.MemStorage.UpdateTestCase | server/storage.js:283-294 | an unknown id changes nothing; otherwise that row is merged |
| Storage.MemStorage.DeleteTestCase | server/storage.js:296-309 | removes the test case, its suite and plan links, its results and its comments, and nothing else |
| Storage.MemStorage.CreateTestResult | server/storage.js:312-320 | appends the new result (createdAt only) and advances its counter |
| Storage.MemStorage.GetTestResult | server/storage.js:322-324 | the first result with that id, or none |
| Storage.MemStorage.GetTestResultsByRunId | server/storage.js:326-328 | exactly the results of the run, in order |
| Storage.MemStorage.GetTestResultHistory | server/storage.js:330-340 | the first rows of the test case's results sorted newest first, as many as the limit keeps; all of them without a limit |
| Storage.MemStorage.CreateFailureTracking | server/storage.js:343-352 | appends the new row and advances its counter |
| Storage.MemStorage.GetFailureTracking | server/storage.js:354-356 | the first row with that id, or none |
| Storage.MemStorage.GetFailureTrackingByStatus | server/storage.js:358-360 | exactly the rows with that status |
| Storage.MemStorage.GetFailureTrackingByAssignee | server/storage.js:362-364 | exactly the rows assigned to the user |
| Storage.MemStorage.UpdateFailureTracking | server/storage.js:366-377 | an unknown id changes nothing; otherwise that row is merged |
| Storage.MemStorage.CreateTestPlan | server/storage.js:380-389 | appends the new plan and advances its counter |
| Storage.MemStorage.GetTestPlan | server/storage.js:391-393 | the first plan with that id, or none |
| Storage.MemStorage.GetTestPlans | server/storage.js:395-400 | with a truthy status, exactly the plans with it; otherwise all |
| Storage.MemStorage.UpdateTestPlan | server/storage.js:402-413 | an unknown id changes nothing; otherwise that row is merged |
| Storage.MemStorage.AddTestCasesToPlan | server/storage.js:415-431 | every old link except this plan's links to the listed ids, then one new link per id, in order, built by the loop; nothing else changes |
| Storage.MemStorage.RemoveTestCasesFromPlan | server/storage.js:433-440 | filters the plan links; reports whether anything was removed |
| Storage.MemStorage.GetTestCasesForPlan | server/storage.js:442-448 | exactly the test cases linked to the plan, in table order |
| Storage.MemStorage.CreateNotification | server/storage.js:451-459 | appends the new notification (createdAt only) and advances its counter |
| Storage.SelectNotifications | server/storage.js:461-469 | holds exactly the user's notifications, filtered by read state when one is given |
| Storage.MemStorage.GetNotificationsForUser | server/storage.js:461-469 | the same notifications as the selection, newest first |
| Storage.MemStorage.MarkNotificationAsRead | server/storage.js:471-481 | an unknown id changes nothing and gives false; otherwise only that row gets read = true |
| Storage.MarkAllRead | server/storage.js:483-489 | the user's notifications get read = true, all others are unchanged, positions kept |
| Storage.MarkAllReadDone | server/storage.js:483-489 | afterwards the user has no unread notification, and marking again changes nothing |
| Storage.MemStorage.MarkAllNotificationsAsRead | server/storage.js:483-489 | replaces the notifications by MarkAllRead and nothing else |
| Storage.MemStorage.CreateReportTemplate | server/storage.js:492-501 | appends the new template and advances its counter |
| Storage.MemStorage.CreateReport | server/storage.js:508-516 | appends the new report (createdAt only) and advances its counter |
| Storage.MemStorage.GetReport | server/storage.js:518-520 | the first report with that id, or none |
| Storage.MemStorage.GetReportsByUser | server/storage.js:522-524 | exactly the reports created by the user |
| Storage.MemStorage.CreateComment | server/storage.js:527-536 | appends the new comment and advances its counter; a generated id is fresh |
| Storage.MemStorage.GetComment | server/storage.js:538-540 | the first comment with that id, or none |
| Storage.MemStorage.GetCommentsByTestCase | server/storage.js:542-545 | the comments of the test case, all of them, oldest first |
| Storage.MemStorage.GetCommentsByUser | server/storage.js:547-549 | exactly the comments by the user, in order |
| Storage.MemStorage.GetCommentReplies | server/storage.js:551-554 | exactly the replies to the comment, oldest first |
| Storage.MemStorage.UpdateComment | server/storage.js:556-567 | an unknown id changes nothing; otherwise only that row's content and updatedAt change |
| Storage.DeleteCommentCascade | server/storage.js:569-577 | no remaining comment has the id or the id as parent; every other comment remains, in order |
| Storage.DeleteCommentShrinks | server/storage.js:569-577 | the table shrinks exactly when some comment has the id or has it as parent |
| Storage.MemStorage.DeleteComment | server/storage.js:569-577 | removes the comment and its direct replies and nothing else; reports whether anything was removed |
| Kanban.DropColumns | client/src/components/kanban/KanbanBoard.tsx:74-93 | one output column per input column, each rewritten by the drop |
| Kanban.DropKeepsColumns | client/src/components/kanban/KanbanBoard.tsx:74-93 | column ids and titles are unchanged |
| Kanban.SourceLosesItem | client/src/components/kanban/KanbanBoard.tsx:76-80 | the source column no longer holds an item with the dragged id |
| Kanban.TargetGainsItem | client/src/components/kanban/KanbanBoard.tsx:82-90 | the target column keeps its old items in order, then the item with its status set to the target and all other fields unchanged |
| Kanban.DropCounts | client/src/components/kanban/KanbanBoard.tsx:74-93 | the count of every id changes only by the source removal and the target append |
| Kanban.DropKeepsPartition | client/src/components/kanban/KanbanBoard.tsx:74-93 | with unique item ids and distinct column ids, the dragged id occurs exactly once afterwards, other ids as before, and the item total is unchanged |
| Kanban.UnknownTargetLosesItem | client/src/components/kanban/KanbanBoard.tsx:74-93 | a drop on a column id no column has loses the item |
| Kanban.KanbanBoard.constructor | client/src/components/kanban/KanbanBoard.tsx:25-53 | the board starts with the given columns, or the four default columns when none are given, and nothing dragged |
| Kanban.KanbanBoard.HandleDragStart | client/src/components/kanban/KanbanBoard.tsx:56-59 | records the dragged item and its source column |
| Kanban.KanbanBoard.HandleDrop | client/src/components/kanban/KanbanBoard.tsx:65-104 | nothing dragged or a drop on the source changes nothing; otherwise the columns are rewritten, the callback gets the move when present, and the drag state resets |
| Kanban.PriorityColorTotal | client/src/components/kanban/KanbanBoard.tsx:107-120 | the four priorities have their own colours and anything else gets the gray default |
| JUnit.FilteredResults | client/src/pages/automated/JUnitUploader.tsx:228-239 | no results give []; every kept result matches the search and the status filter |
| JUnit.FilteredResultsExact | client/src/pages/automated/JUnitUploader.tsx:228-239 | the filtered list keeps order and holds exactly the results that match both |
| JUnit.NoFilterKeepsAll | client/src/pages/automated/JUnitUploader.tsx:230-235 | an empty query and an empty status filter keep everything |
| JUnit.ComparatorIsComparator | client/src/pages/automated/JUnitUploader.tsx:242-256 | each column's comparison, ascending or negated, is a consistent comparator |
| JUnit.SortedResults | client/src/pages/automated/JUnitUploader.tsx:242-256 | a permutation of the filtered list, sorted by the chosen column and direction; an unknown column keeps the filtered order |
| JUnit.SortedByDuration | client/src/pages/automated/JUnitUploader.tsx:251-255 | ascending by duration means non-decreasing durations; descending means non-increasing |
| JUnit.SortedByName | client/src/pages/automated/JUnitUploader.tsx:245-246 | ascending by name means names in string order |
| JUnit.Paginated | client/src/pages/automated/JUnitUploader.tsx:259-262 | page p is the slice [(p-1)·size, p·size) of the sorted list, so at most size rows, and empty past the end |
| JUnit.TotalPages | client/src/pages/automated/JUnitUploader.tsx:214 | the ceiling of length / size: the fewest pages that hold every row |
| JUnit.PagesCoverAll | client/src/pages/automated/JUnitUploader.tsx:214-262 | pages 1 to TotalPages concatenated give the whole sorted list |
| JUnit.PageNonEmpty | client/src/pages/automated/JUnitUploader.tsx:214-262 | a page is non-empty exactly when its number is in 1 .. TotalPages |
| JUnit.SortToggleTwice | client/src/pages/automated/JUnitUploader.tsx:204-211 | clicking the sort column flips the direction, and clicking twice restores it |
| JUnit.SortNewColumnAscending | client/src/pages/automated/JUnitUploader.tsx:204-211 | clicking another column sorts it ascending |
| JUnit.ResultsTable.constructor | client/src/pages/automated/JUnitUploader.tsx:78-83 | empty search and filter, sort by name ascending, page 1 of 25 rows |
| JUnit.ResultsTable.HandleSort | client/src/pages/automated/JUnitUploader.tsx:204-211 | sets the sort column and direction by the toggle rule and nothing else |
| JUnit.ResultsTable.HandlePageChange | client/src/pages/automated/JUnitUploader.tsx:214-220 | moves to the page only when 1 ≤ page ≤ TotalPages of the filtered list, so a changed page is never empty; nothing else changes |
| JUnit.TotalPagesAsWrittenThrows | client/src/pages/automated/JUnitUploader.tsx:214 | evaluated where it is declared, totalPages reads filteredResults before its declaration and throws |
| JUnit.TotalPagesAfterFilteringDefined | client/src/pages/automated/JUnitUploader.tsx:228-262 | declared after the derived lists, the page count is defined |
| JUnit.Tick | client/src/pages/automated/JUnitUploader.tsx:182-187 | one tick adds 5 and never gives more than 90 |
| JUnit.TicksClosedForm | client/src/pages/automated/JUnitUploader.tsx:182-187 | from progress ≤ 90, n ticks give min(90, p + 5n): ticks alone never exceed 90 |
| JUnit.TicksReachCap | client/src/pages/automated/JUnitUploader.tsx:182-187 | from 0, eighteen or more ticks give exactly 90 |
| JUnit.UploadForm.RunTicks | client/src/pages/automated/JUnitUploader.tsx:182-187 | the interval firing n times leaves the progress at n ticks from where it was, and the form unchanged |
| JUnit.UploadForm.OnSuccess | client/src/pages/automated/JUnitUploader.tsx:138-147 | clears the file, run name and environment and resets the progress |
| JUnit.UploadForm.HandleUpload | client/src/pages/automated/JUnitUploader.tsx:167-195 | no file or a blank name sends nothing and changes nothing; otherwise the request carries the file, the untrimmed name and a non-empty environment; success clears the form and shows 100; failure keeps the form with the ticked progress |
| JUnit.StripExtension | client/src/pages/automated/JUnitUploader.tsx:161 | removes exactly the final dot-extension (no dot or slash after it, at least one character), or nothing if there is none |
| JUnit.ExtensionUnique | client/src/pages/automated/JUnitUploader.tsx:161 | a name has at most one such extension |
| JUnit.StripExtensionExamples | client/src/pages/automated/JUnitUploader.tsx:161 | results.xml becomes results, suite.tar.gz becomes suite.tar; report, report. and build.d/report are kept |
| JUnit.DefaultRunNameNotBlank | client/src/pages/automated/JUnitUploader.tsx:162 | the proposed run name is never blank, so a chosen file passes the guard |
| JUnit.UploadForm.HandleFileChange | client/src/pages/automated/JUnitUploader.tsx:155-164 | the first chosen file is selected and the run name proposed from it; no file changes nothing |
| JUnit.FormatDuration | client/src/pages/automated/JUnitUploader.tsx:265-272 | below 1000 ms the text is a decimal numeral followed by "ms" that reads back as the input |
| JUnit.StatusBadgeDistinct | client/src/pages/automated/JUnitUploader.tsx:275-288 | each result status gets its own colour, never the gray default |
| CommentsDemo.AddComment | client/src/pages/manual/TestCasesDemo.tsx:167-176 | the new comment (id now, the author, the content, 0 likes, no replies) comes first and the old list follows unchanged |
| CommentsDemo.ReplyComment | client/src/pages/manual/TestCasesDemo.tsx:178-199 | same length; each top-level comment with the id gets the reply appended to its replies, the others are unchanged |
| CommentsDemo.ReplyAddsMatches | client/src/pages/manual/TestCasesDemo.tsx:178-199 | the reply count grows by the number of matching top-level comments: by one for a unique id |
| CommentsDemo.ReplyNoMatch | client/src/pages/manual/TestCasesDemo.tsx:179-197 | an id no top-level comment has leaves the list equal to the input |
| CommentsDemo.LikeOne | client/src/pages/manual/TestCasesDemo.tsx:204-219 | a matching comment gains one like with replies untouched; otherwise its matching replies gain one each; nothing but likes changes |
| CommentsDemo.LikeComment | client/src/pages/manual/TestCasesDemo.tsx:201-223 | same length; each comment rewritten by the like rule |
| CommentsDemo.LikeAddsOccurrences | client/src/pages/manual/TestCasesDemo.tsx:201-223 | when no comment with the id also has a reply with it, total likes grow by the number of comments and replies with the id, so by one for a unique id |
| CommentsDemo.LikeNoMatch | client/src/pages/manual/TestCasesDemo.tsx:201-223 | an id nothing has leaves the list equal to the input |
| CommentSection.InitialsLength | client/src/components/comments/CommentSection.tsx:80-86 | one initial per non-empty space-separated part, so at most one more than the spaces |
| CommentSection.InitialsUpperCase | client/src/components/comments/CommentSection.tsx:80-86 | initials contain no lower-case letter |
| CommentSection.InitialsTwoWords | client/src/components/comments/CommentSection.tsx:80-86 | "First Last" gives the two upper-cased first letters |
| CommentSection.InitialsExample | client/src/components/comments/CommentSection.tsx:80-86 | "Sarah Chen" gives "SC" |
| CommentSection.InitialsOfEmpty | client/src/components/comments/CommentSection.tsx:80-86 | an empty name gives no initials |
| CommentSection.CommentForm.constructor | client/src/components/comments/CommentSection.tsx:47-51 | all inputs empty, nothing being replied to or edited |
| CommentSection.CommentForm.HandleAddComment | client/src/components/comments/CommentSection.tsx:52-57 | posts the untrimmed text only when it is not blank and the callback exists, then clears it; otherwise nothing changes |
| CommentSection.CommentForm.HandleReply | client/src/components/comments/CommentSection.tsx:59-65 | fires only for non-blank text with a callback; then closes the reply form and clears the text |
| CommentSection.CommentForm.HandleEdit | client/src/components/comments/CommentSection.tsx:67-73 | fires only for non-blank text with a callback; then leaves edit mode and clears the text |
| CommentSection.CommentForm.StartEditing | client/src/components/comments/CommentSection.tsx:75-78 | edits the comment, starting from its current content |
| CommentSection.CommentForm.ToggleReply | client/src/components/comments/CommentSection.tsx:157 | sets the replied-to comment by the toggle rule |
| CommentSection.ReplyToggle | client/src/components/comments/CommentSection.tsx:157 | the reply form opens exactly when it was not open for that comment; a second click undoes the first |
| CommentSection.EditingHidesOnlyItsControls | client/src/components/comments/CommentSection.tsx:163 | a comment being edited shows no controls, editing one comment does not affect another's, and a comment by someone else never shows them |
| StatusBadge.Capitalize | client/src/components/ui/StatusBadge.tsx:37 | the first character upper-cased, the rest unchanged |
| StatusBadge.LabelSpaces | client/src/components/ui/StatusBadge.tsx:37 | the label has one space per hyphen of the status, plus its own spaces |
| StatusBadge.LabelTwoWords | client/src/components/ui/StatusBadge.tsx:37 | "a-b" is labelled with both words capitalised and joined by a space |
| StatusBadge.LabelInProgress | client/src/components/ui/StatusBadge.tsx:37 | in-progress is labelled In Progress |
| StatusBadge.LabelNotRun | client/src/components/ui/StatusBadge.tsx:37 | not-run is labelled Not Run |
| StatusBadge.LabelOneWord | client/src/components/ui/StatusBadge.tsx:37 | a status without hyphens is only capitalised |
| StatusBadge.UnknownStatusLooksBlocked | client/src/components/ui/StatusBadge.tsx:10-29 | a status outside the seven gets the same classes as blocked |

## Left out

- The `DatabaseStorage` class (server/storage.js:581-595) and all of server/storage.ts are not part of this model: they forward to a database.
- `getReportTemplates`, `getTestSuites()` without a parent and `getTestPlans()` without a status return the live table array (server/storage.js:181, 399, 504), so a caller that mutates it changes the store. The model returns the table as a value, so that aliasing is not captured. `getReportTemplates` is `Storage.MemStorage.GetReportTemplates`, which needs no contract.
- The model does not check the shape of rows: a field may hold any `Js.Value`. `Js.Value` has no object or array case, so a nested value such as a user's `preferences` object (server/storage.js:97-108) is one opaque value whose contents the model does not see.
- Storage.FieldMentions: for a `name`, `description` or `richContent` that is neither a string nor nullish, `testCase.name?.toLowerCase()` (server/storage.js:268-270) throws a TypeError; the model returns false there, so `getTestCases` does not model that exception.
- Storage.TimeOf: only `Date` and number values carry a time. Parsing date strings and `NaN` timestamps are left out, so other values sort as time 0.
- Sorting.LexCompare stands in for `localeCompare`, which depends on the locale. The model uses code-point order, which is a consistent total order like any locale's.
- Text.UpperChar and Text.LowerChar map ASCII letters only. Unicode case mapping is not modelled.
- JUnit.FormatDuration: the seconds branch (`toFixed(2)`) uses floating point and gives `None`. Durations are integers.
- Timers are not modelled: the 200 ms interval is the number of ticks, and the 200 ms mount delay of the runs list is left out. The network calls of the upload, the notifications (`alert`) and query invalidation are left out too.
- Data fetching (`useQuery`) is left out: the loaded results are a constructor argument of `ResultsTable`.
- The results page has no controls that change the table state: `setSearchQuery` and `setStatusFilter` (client/src/pages/automated/JUnitUploader.tsx:78-79) are never called, and `handleSort` and `handlePageChange` (lines 204 and 216) are attached to no element. In the program only the initial search, filter, sort and page values occur. The model's fields and handlers also cover values the page never produces.
- Rendering is left out: JSX, icons, modals and the row-click handler.
- `handleKanbanItemMove` (client/src/pages/manual/TestCasesDemo.tsx:162-165) is left out: it only logs and changes no state.
- The rich-text editor, the sidebar and the other pages are not part of this model.
- Kanban.KanbanBoard.HandleDrop: the drop always appends to the end of the target column, as the code does. There is no insertion at a drop position and no rollback.

## Findings

| source | as written | input that shows it | evidently intended | confidence | as-written member | corrected member |
|---|---|---|---|---|---|---|
| client/src/pages/automated/JUnitUploader.tsx:214 | `totalPages` reads `filteredResults`, but the `const` declaration of `filteredResults` comes later, at line 228, in the same component body. The read is in its temporal dead zone and throws a ReferenceError. | any render of the page, with any list of results | the page count is computed from the filtered list after it has been declared, so `handlePageChange` can check its bounds | not executed; follows from the `const` scoping rules of ECMAScript | JUnit.TotalPagesAsWrittenThrows | JUnit.ResultsTable.HandlePageChange |
