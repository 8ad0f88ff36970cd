# ProjectManager core, modelled in Dafny

ProjectManager is a small project-management application: an Express
backend over a relational database, plus a React frontend. A project owns
everything else:

- a kanban board of columns holding tasks, with their comments and attachments;
- phases and work packages, and the deliverables hung on them;
- configuration sections holding links;
- dated events;
- a diary of entries carrying images and comments.

This project models the request handlers of every feature controller
except the search controller and `listTasks`. It also models:

- the relative-date resolver of the JSON import (`T0`, `T0+3mesi`);
- the error middleware;
- the URL building of the frontend's REST client;
- the frontend's project-list store.

It then proves what each of them promises.

How the model is laid out:

- Each backend controller is a module with one class per database table.
  - A table is a `seq` field whose order is table order. Ties in an ORM
    `orderBy` are broken by that order.
  - Each handler is a method with a `modifies` clause, or a function with
    `reads` when it only queries.
  - A handler's `Result` is either its JSON value or the error it passes
    to `next`. `ErrorHandler.Respond` turns that error into a status and a
    body.
- Request bodies are datatypes.
  - `None` is a field left out.
  - `Patch` (`Absent`, `Null`, `Value`) is a nullable field of a PATCH body.
  - Each zod schema is a predicate.
- What the database or the environment supplies is a parameter of the
  handler:
  - fresh ids, with a precondition that they are unused;
  - creation timestamps;
  - the current day;
  - the uploads directory;
  - whether the generated ORM client knows the event model;
  - the outcome of a frontend API call.
- Shared modules:
  - `Dates`: civil dates and JavaScript's `Date` field arithmetic
    (ECMAScript MakeDay).
  - `Calendar`: `parseInt` and the query-string checks that the events and
    diary controllers share.
  - `Ordering`: the `order`/`sortOrder` bookkeeping (append at max + 1,
    reorder transactions, `moveTask`'s splice).
  - `Seqs`: filter, stable sort and take.
  - `Files`: the uploads directory as a set of paths.
  - `Relations`: the rows an ORM `include` attaches from another
    feature's tables (a task's comments, attachments, phase and work
    package; a phase's work packages; a work package's phase), with their
    `_count` figures.

Where the code differs from the project's own documentation, the model
follows the code:

- Deliverable types: there are five, with no "code" type.
- A deliverable may name both a phase and a work package. The body must
  name at least one of them.
- `convertDeliverableToTask` does not record the new task on the
  deliverable, and leaves the deliverable unchanged.
- The summary's overdue list has no column filter and no time window.
- `parseRelativeDate` does not accept the singular units "giorno" and
  "settimana" that its comment lists (see `RelativeDate.SingularDayRejected`).
- `updateProject` and `deleteProject` on a missing id fail with the ORM's
  own error, which answers 500, not 404.
- `createEntry` does not check that the project exists.

## Model

| member | source | states |
|---|---|---|
| ErrorHandler.NewAppError | backend/src/middleware/errorHandler.ts:3-12 | an AppError is named "AppError" and keeps the status, message and code it was built with |
| ErrorHandler.NotFound | backend/src/middleware/errorHandler.ts:3-12 | a row outside the project is an AppError with status 404 and code NOT_FOUND |
| ErrorHandler.BadRequest | backend/src/middleware/errorHandler.ts:3-12 | a rejected request is an AppError with status 400 and the given code |
| ErrorHandler.Invalid | backend/src/features/events/controller.ts:128-131 | a body the schema refuses is an AppError with status 400 and code VALIDATION_ERROR |
| ErrorHandler.Respond | backend/src/middleware/errorHandler.ts:14-39 | an AppError answers its own status, message and code; anything else answers 500 INTERNAL_ERROR, with the error's own message outside production and "Errore interno del server" otherwise |
| ErrorHandler.ProductionHidesInternals | backend/src/middleware/errorHandler.ts:31-34 | in production no text but an AppError's reaches the client |
| ErrorHandler.StatusFromAppError | backend/src/middleware/errorHandler.ts:20-35 | any status other than 500 comes from an AppError, which chose it |
| ErrorHandler.EnvironmentChangesOnlyText | backend/src/middleware/errorHandler.ts:31-38 | the environment changes neither status nor code, and nothing at all for an AppError |
| Dates.DaysInMonth | backend/src/features/events/controller.ts:48 | every month has 28 to 31 days |
| Dates.Midnight | backend/src/features/summary/controller.ts:6-7 | `setHours(0, 0, 0, 0)` keeps the day and clears the time |
| Dates.MakeDate | backend/src/features/events/controller.ts:47-48 | `new Date(y, m0, day)` with out-of-range month and day carried over is always a valid day |
| Dates.MakeDateOfValid | backend/src/features/events/controller.ts:47 | on an in-range month and day it is that very day |
| Dates.MakeDateInMonth | backend/src/features/events/controller.ts:47-48 | for a month 1..12, day `day` of it is `day - 1` days after its first, whatever the sign or size of `day` |
| Dates.MonthBounds | backend/src/features/events/controller.ts:47-48 | `new Date(y, m - 1, 1)` is the first of month m, an out-of-range m carried into the year, and `new Date(y, m, 0)` is the last day of that same month |
| Dates.LastDayOfMonth | backend/src/features/events/controller.ts:47-48 | day 0 of the month after m is the last day of m, and day 1 of m is its first |
| Dates.AddDaysMonotone | backend/src/lib/relativeDate.ts:35 | adding days never goes back, and adding a positive number goes forward |
| Dates.AddDaysAdditive | backend/src/lib/relativeDate.ts:35-37 | adding a + b days is adding a, then b |
| Dates.SetDatePlusIsAddDays | backend/src/lib/relativeDate.ts:35-37 | `setDate(getDate() + n)` is n days later |
| Dates.SetMonthPlusMonotone | backend/src/lib/relativeDate.ts:39 | `setMonth(getMonth() + n)` never goes back |
| Dates.SetFullYearPlusMonotone | backend/src/lib/relativeDate.ts:41 | `setFullYear(getFullYear() + n)` never goes back |
| Dates.EndOfJanuaryPlusOneMonth | backend/src/lib/relativeDate.ts:39 | 31 January plus one month overflows into 2 or 3 March |
| Dates.LeapDayPlusOneYear | backend/src/lib/relativeDate.ts:41 | 29 February plus one year is 1 March |
| Dates.IsoDate | backend/src/features/events/controller.ts:119 | `new Date("YYYY-MM-DD")` is a valid day |
| Dates.IsoReadableExamples | backend/src/features/events/controller.ts:119 | month 13, month 00 and day 00 are not readable dates; 30 February is, and is carried into March |
| Dates.IsoDateOfReadable | backend/src/features/events/controller.ts:119 | a readable text whose day lies within its month is exactly that year, month and day |
| Dates.DayKeyOrder | backend/src/features/summary/controller.ts:50 | a day's number orders days exactly as the calendar does, and two days share a number only when equal |
| Dates.NotAfterTotal | backend/src/features/summary/controller.ts:50 | of two days one is never after the other |
| Dates.NotAfterTransitive | backend/src/features/summary/controller.ts:50 | "not after" is transitive |
| Dates.StoredDate | backend/src/features/tasks/controller.ts:59-60 | `body.d ? new Date(body.d) : null` is a day exactly when a date was sent, and then a valid one |
| Common.Patched | backend/src/features/tasks/controller.ts:100-101 | a field left out keeps its value, `null` clears it, a value replaces it |
| Common.Trim | backend/src/features/config/controller.ts:57 | `trim()` is no longer than its input and, when not empty, starts and ends with a non-space |
| Common.TrimDropsOnlySpace | backend/src/features/config/controller.ts:57 | it removes only whitespace, from the two ends |
| Common.TrimIdempotent | backend/src/features/config/controller.ts:57 | trimming twice is trimming once; labels are trimmed the same way at line 141 |
| Common.TrimEmptyIffAllSpace | backend/src/features/config/controller.ts:57 | the trimmed text is empty exactly when the input was only whitespace |
| Common.Utf16Length | backend/src/features/tasks/controller.ts:9-17 | a string's length in UTF-16 code units is between its number of characters and twice that, and 0 only for the empty string |
| Common.Utf16LengthOfBmp | backend/src/features/tasks/controller.ts:9-17 | a string of characters below U+10000 has as many code units as characters |
| Common.Utf16LengthOfAstral | backend/src/features/tasks/controller.ts:9-17 | a string of characters from U+10000 up has two code units per character |
| Common.LengthIn | backend/src/features/tasks/controller.ts:9-17 | `z.string().min(lo).max(hi)` in code units: an accepted string has at most `hi` characters and at least `lo / 2`; any string of `lo` to `hi / 2` characters is accepted |
| Files.Disk.Unlink | backend/src/features/diary/controller.ts:154 | afterwards the path is gone, nothing else changes, and the result says whether it was there |
| Ordering.MaxOrder | backend/src/features/board/controller.ts:33-36 | `_max.order` is null exactly when no row is in scope, and otherwise the largest order among the rows in scope |
| Ordering.NextOrder | backend/src/features/board/controller.ts:37 | `(max ?? -1) + 1` is above every order in scope, 0 for an empty scope and one past the largest otherwise |
| Ordering.NextOrderFresh | backend/src/features/tasks/controller.ts:47-51 | the appended order is never negative and is held by no row in scope |
| Ordering.LastIndex | backend/src/features/board/controller.ts:94-100 | the last position of a value in a list |
| Ordering.LastIndexDistinct | backend/src/features/board/controller.ts:94-100 | in a list without repeats, the last position of an element is its only position |
| Ordering.ApplyWrites | backend/src/features/board/controller.ts:94-101 | running the transaction's writes one by one in list order gives the reordered table |
| Ordering.ReorderedRow | backend/src/features/board/controller.ts:94-101 | after the transaction a row in scope whose id is listed has `base` plus the last position of its id as its order; every other row is unchanged |
| Ordering.Reordered | backend/src/features/board/controller.ts:94-101 | the table after the reorder writes has as many rows as before |
| Ordering.Remove | backend/src/features/tasks/controller.ts:175 | `splice(i, 1)` removes exactly position i and shifts the rest down |
| Ordering.InsertAt | backend/src/features/tasks/controller.ts:176 | `splice(i, 0, x)` puts x at position i and shifts the rest up |
| Ordering.MoveSpec | backend/src/features/tasks/controller.ts:174-176 | the moved list has the same length and elements, the moved item at its new place, and the others in their former relative order |
| Ordering.MoveDistinct | backend/src/features/tasks/controller.ts:174-176 | moving keeps a list without repeats without repeats |
| Ordering.ListingHeadLowest | backend/src/features/board/controller.ts:102-105 | a row in scope makes the ordered listing non-empty, and the listing starts with a row of no larger order |
| Ordering.Listing | backend/src/features/board/controller.ts:102-105 | `findMany({ where, orderBy: { order: "asc" } })` gives exactly the rows in scope, by ascending order |
| Ordering.ListedRowInScope | backend/src/features/board/controller.ts:102-105 | every listed row is a stored row in scope |
| Ordering.RowListed | backend/src/features/board/controller.ts:102-105 | every stored row in scope is listed |
| Ordering.ReorderedKeepsIds | backend/src/features/board/controller.ts:94-101 | the transaction changes no id and no scope, so ids stay unique |
| Ordering.ReorderThenListing | backend/src/features/board/controller.ts:90-106 | reordering a scope by a permutation of its ids and listing it gives the rows in the list's order, with orders 0 to n - 1 |
| Board.ColumnOrderLaws | backend/src/features/board/controller.ts:96-98 | writing a column's order keeps its id and project, and the written order reads back |
| Board.ReorderedColumn | backend/src/features/board/controller.ts:94-101 | after the reorder writes, a listed column of the project has the last index of its id in the list; every other column is unchanged |
| Board.ReorderColumnsReadsBack | backend/src/features/board/controller.ts:94-105 | for a permutation of all the project's column ids, the columns get orders 0..n-1 and the listing afterwards returns them in list order |
| Board.ColumnStore.ListColumns | backend/src/features/board/controller.ts:10-27 | exactly the project's columns, each once, sorted by ascending order |
| Board.ColumnStore.CreateColumn | backend/src/features/board/controller.ts:6-49 | a missing or out-of-range name (1..100) is a 400 validation error that stores nothing; otherwise the column is appended with order max+1, or 0 in a project without columns |
| Board.ColumnStore.UpdateColumn | backend/src/features/board/controller.ts:51-72 | an invalid name is 400; a column outside the project is 404 "Colonna non trovata" with nothing changed; otherwise only its name changes, and only when a name was sent; the name schema is at line 7 |
| Board.ValidNameCountsUnits | backend/src/features/board/controller.ts:6-7 | a column name of characters from U+10000 up is accepted exactly when it has 1 to 50 characters, not 100: each counts twice |
| Board.ColumnStore.DeleteColumn | backend/src/features/board/controller.ts:74-88 | a column outside the project is 404 with nothing changed; otherwise exactly that column is removed |
| Board.ColumnStore.ReorderColumns | backend/src/features/board/controller.ts:90-114 | a missing id list is 400; otherwise each listed id's index is written to that project column and the result is the project's columns listed by order; the id-list schema is at line 8 |
| Tasks.NewTask | backend/src/features/tasks/controller.ts:52-63 | the inserted row has the given id, project, column, order, title and description; a date is stored exactly when it was sent; phase and work package are what was sent, null when left out |
| Tasks.PatchTaskFields | backend/src/features/tasks/controller.ts:97-103 | an update never changes id, project, column, order or creation time; a field left out keeps its value, `null` clears a date or link, and a value replaces it (a date is parsed from its text) |
| Tasks.PatchTaskIdempotent | backend/src/features/tasks/controller.ts:97-103 | applying an update twice equals applying it once, and an empty body changes nothing |
| Tasks.TaskOrderLaws | backend/src/features/tasks/controller.ts:178 | writing a task's order keeps its id and the written order reads back |
| Tasks.RenumberedColumn | backend/src/features/tasks/controller.ts:177-179 | writing positions 0..n-1 for a repeat-free list of exactly a column's ids makes the column list those ids in that order, numbered 0..n-1 |
| Tasks.MoveWithinListing | backend/src/features/tasks/controller.ts:158-179 | in a same-column move the task is found in its column's listing; when the clamped index `min(order, n-1)` is its own index nothing changes, otherwise the column lists the spliced sequence numbered 0..n-1 |
| Tasks.MoveWithinPlacement | backend/src/features/tasks/controller.ts:166-176 | after a same-column move to a new index the task sits at that index and the other tasks keep their relative order |
| Tasks.MoveWithinKeeps | backend/src/features/tasks/controller.ts:177-179 | a same-column move changes only orders, and no task of another column |
| Tasks.MoveAcrossMoved | backend/src/features/tasks/controller.ts:185-196 | in a cross-column move the task lands in the target column at `min(order, n)` |
| Tasks.MoveAcrossOther | backend/src/features/tasks/controller.ts:186-200 | a cross-column move leaves every task outside the target column unchanged, the origin column's included |
| Tasks.MoveAcrossTarget | backend/src/features/tasks/controller.ts:187-199 | a target-column task before `min(order, n)` keeps its position; one at or after it moves one place up |
| Tasks.MoveAcrossShape | backend/src/features/tasks/controller.ts:186-200 | a cross-column move changes no id, and the target column then holds its former tasks plus the moved one |
| Tasks.MoveAcrossListing | backend/src/features/tasks/controller.ts:181-200 | after a cross-column move the target column lists its former tasks with the moved task spliced in at `min(order, n)`, numbered 0..n |
| Tasks.MoveAcross | backend/src/features/tasks/controller.ts:181-200 | a cross-column move keeps the number of rows |
| Tasks.RenumberedKeepsIds | backend/src/features/tasks/controller.ts:177-200 | renumbering keeps every task's id, so ids stay unique |
| Tasks.UnlinkAll | backend/src/features/tasks/controller.ts:137-141 | after unlinking the attachments, none of their paths is on disk and every other file is still there |
| Tasks.DeleteKeepsValid | backend/src/features/tasks/controller.ts:142 | deleting a task together with its comments and attachments keeps ids unique and every child owned by a stored task |
| Tasks.RemoveAttachmentKeepsValid | backend/src/features/tasks/controller.ts:278 | deleting one attachment keeps the tables valid |
| Tasks.AddTaskKeepsValid | backend/src/features/tasks/controller.ts:52-65 | inserting a task under an id no task has keeps ids unique and every comment and attachment on a stored task |
| Tasks.TaskStore.CreateTask | backend/src/features/tasks/controller.ts:43-74 | an invalid body is 400 and stores nothing; then an unreadable date (a month outside 01..12 or a day outside 01..31) is the 500 the ORM gives for an Invalid Date, with nothing stored; otherwise the new task is appended one past its column's largest order, or at 0, and returned; the body schema is at lines 9-17 |
| Tasks.TaskStore.UpdateTask | backend/src/features/tasks/controller.ts:93-124 | an invalid body is 400; then an unreadable date (a month outside 01..12 or a day outside 01..31) is the 500 the ORM gives for an Invalid Date, before the row is looked for; a task outside the project is 404 with nothing changed; otherwise only that row changes, to the patched row, which is returned; the body schema is at lines 18-25 |
| Tasks.TaskStore.DeleteTask | backend/src/features/tasks/controller.ts:126-147 | a task outside the project is 404 with nothing changed; otherwise its attachment files are unlinked and it is removed with its comments and attachments |
| Tasks.TaskStore.Renumber | backend/src/features/tasks/controller.ts:177-179 | the new table is the old one with each listed id's order set to base plus its position |
| Tasks.TaskStore.MoveTask | backend/src/features/tasks/controller.ts:149-214 | a missing column or a missing or negative order is 400; a task outside the project is 404; both leave the table as it was; otherwise the table becomes the same-column or cross-column move of the old one, and the moved task is returned; the body schema is at line 26 |
| Tasks.TaskStore.MoveWithinColumn | backend/src/features/tasks/controller.ts:158-179 | the table becomes the same-column move of the old one; comments and attachments do not change |
| Tasks.TaskStore.MoveAcrossColumns | backend/src/features/tasks/controller.ts:180-200 | the table becomes the cross-column move of the old one, as one transaction |
| Tasks.TaskStore.AddComment | backend/src/features/tasks/controller.ts:216-236 | content outside 1..2000 UTF-16 code units is 400 and a task outside the project 404, with nothing stored; otherwise the comment is appended and returned; the body schema is at line 27 |
| Tasks.TaskStore.AddAttachment | backend/src/features/tasks/controller.ts:238-263 | no file is 400 "Nessun file caricato", checked before the task; a task outside the project is 404; otherwise the attachment stores the client's file name and the path `<uploads dir>/<stored name>` |
| Tasks.TaskStore.RemoveAttachment | backend/src/features/tasks/controller.ts:265-283 | an attachment not of that project task is 404 "Allegato non trovato" with nothing changed; otherwise its file is unlinked and only that row is removed |
| Phases.NewPhase | backend/src/features/phases/controller.ts:45-53 | the inserted phase has the given id, project, name and sort order; each date is stored exactly when it was sent |
| Phases.PatchPhaseFields | backend/src/features/phases/controller.ts:68-72 | an update never changes id or project; a field left out keeps its value, a sort order sent is written as it is, and `null` clears a date |
| Phases.PatchPhaseIdempotent | backend/src/features/phases/controller.ts:68-72 | applying an update twice equals applying it once, and an empty body changes nothing |
| Phases.PhaseOrderLaws | backend/src/features/phases/controller.ts:114-117 | writing a phase's sort order keeps its id and project, and the written order reads back |
| Phases.ReorderedPhase | backend/src/features/phases/controller.ts:112-119 | after the reorder writes, a listed phase of the project has the last index of its id; every other phase is unchanged |
| Phases.ReorderPhasesReadsBack | backend/src/features/phases/controller.ts:112-123 | for a permutation of all the project's phase ids, listing afterwards returns them in list order, numbered 0..n-1 |
| Phases.PhaseStore.ListPhases | backend/src/features/phases/controller.ts:22-24 | exactly the project's phase rows, each once, by ascending sort order: the query of `listPhases` (completed by Relations.ListPhases) and the list `reorderPhases` returns at lines 120-123 |
| Phases.PhaseStore.CreatePhase | backend/src/features/phases/controller.ts:36-62 | an invalid body is 400 and stores nothing; then an unreadable date (a month outside 01..12 or a day outside 01..31) is the 500 the ORM gives for an Invalid Date; otherwise the phase is appended one past the project's largest sort order, or at 0; the body schema is at lines 6-10 |
| Phases.PhaseStore.UpdatePhase | backend/src/features/phases/controller.ts:64-90 | an invalid body (a negative sort order included) is 400; then an unreadable date (a month outside 01..12 or a day outside 01..31) is the 500 the ORM gives for an Invalid Date; then a sort order above 2^31 - 1 is the 500 the ORM gives for a value out of range for its 32-bit column; these come before the row is looked for; a phase outside the project is 404 "Fase non trovata" with nothing changed; otherwise only that phase changes, to the patched row; the body schema is at lines 11-16 |
| Phases.PhaseStore.DeletePhase | backend/src/features/phases/controller.ts:92-106 | a phase outside the project is 404 with nothing changed; otherwise only it is removed |
| Phases.PhaseStore.ReorderPhases | backend/src/features/phases/controller.ts:108-132 | a missing id list is 400; otherwise each listed id's index is written to that project phase and the phases are listed by sort order; the id-list schema is at line 17 |
| WorkPackages.PatchedPhase | backend/src/features/workpackages/controller.ts:78-91 | a phase left out keeps its value; `null` or `""` becomes null; a non-empty id is written as it is |
| WorkPackages.PatchKeepsPhaseLinked | backend/src/features/workpackages/controller.ts:75-91 | an update that passed the phase check keeps the phase reference null or pointing at a phase of the project, and keeps id and project |
| WorkPackages.WorkPackageOrderLaws | backend/src/features/workpackages/controller.ts:136-139 | writing a sort order keeps the id and project, and the written order reads back |
| WorkPackages.ReorderedWorkPackage | backend/src/features/workpackages/controller.ts:134-141 | after the reorder writes, a listed work package of the project has the last index of its id, with its phase untouched; every other row is unchanged |
| WorkPackages.ReorderWorkPackagesReadsBack | backend/src/features/workpackages/controller.ts:134-146 | for a permutation of the project's work-package ids, listing afterwards returns them in list order, numbered from 0 |
| WorkPackages.WorkPackageStore.ListWorkPackages | backend/src/features/workpackages/controller.ts:20-22 | exactly the project's work-package rows, each once, by ascending sort order: the query of `listWorkPackages`, completed by Relations.ListWorkPackages |
| WorkPackages.WorkPackageStore.CreateWorkPackage | backend/src/features/workpackages/controller.ts:34-69 | an invalid body is 400; a non-empty phase id that names no phase of the project is 400 "Fase non trovata"; otherwise the row is appended one past the largest sort order, with its phase reference sound; the body schema is at lines 6-9 |
| WorkPackages.WorkPackageStore.UpdateWorkPackage | backend/src/features/workpackages/controller.ts:71-112 | the body is checked first, then a non-empty phase id against the project's phases (400), then a sort order above 2^31 - 1 is the ORM's 500 for a 32-bit column, and only then the row (404 "Work package non trovato"); otherwise only that row changes, to the patched row; the body schema is at lines 10-14 |
| WorkPackages.WorkPackageStore.DeleteWorkPackage | backend/src/features/workpackages/controller.ts:114-128 | a row outside the project is 404 with nothing changed; otherwise only it is removed |
| WorkPackages.WorkPackageStore.ReorderWorkPackages | backend/src/features/workpackages/controller.ts:130-155 | a missing id list is 400; otherwise each listed id's index is written to its project row and the project's work packages are listed by sort order; the id-list schema is at line 15 |
| Config.CreatedSlug | backend/src/features/config/controller.ts:16-56 | the stored slug is null exactly when the type was absent, `null` or "other"; otherwise it is the sent slug, one of the three named types |
| Config.UpdatedSlug | backend/src/features/config/controller.ts:83 | a type left out keeps the stored slug; `null` or "other" clears it; any other sent slug replaces it; the type field of the schema is at line 20 |
| Config.CreatedUrl | backend/src/features/config/controller.ts:134 | the stored URL is null exactly when it was absent or ""; otherwise it is the sent, non-empty URL; the url field of the schema is at line 25 |
| Config.UpdatedUrl | backend/src/features/config/controller.ts:159 | a URL left out keeps the stored one; `null` or "" clears it; a non-empty URL replaces it; the url field of the schema is at line 29 |
| Config.StoredSlugNamed | backend/src/features/config/controller.ts:56-83 | a stored slug is always null or one of "links", "repo", "docs" |
| Config.SectionTypeOptionsMatchSchema | backend/src/features/config/controller.ts:7-16 | the option table has one entry per slug the schemas accept, in the same order |
| Config.GetSectionTypes | backend/src/features/config/controller.ts:33-35 | every option's slug is accepted by the schema, and every accepted slug has an option |
| Config.StoredNameEmptyIffBlank | backend/src/features/config/controller.ts:15-57 | the length check runs before trimming: an accepted name is stored empty exactly when it is all whitespace |
| Config.BlankNameAccepted | backend/src/features/config/controller.ts:15-57 | the name "   " passes the check and is stored as "" |
| Config.NewSection | backend/src/features/config/controller.ts:56-64 | the new section has the given id, project and order, the trimmed name and the normalised slug |
| Config.PatchSection | backend/src/features/config/controller.ts:81-83 | an update keeps id, project and order; a sent name is stored trimmed; the slug follows the update rule |
| Config.PatchSectionIdempotent | backend/src/features/config/controller.ts:81-83 | sending the same section update twice equals sending it once |
| Config.NewLink | backend/src/features/config/controller.ts:134-141 | the new link has the given id, project, section and order, the trimmed label and the normalised URL |
| Config.PatchLink | backend/src/features/config/controller.ts:157-159 | an update keeps id, project, section and order; a sent label is stored trimmed; the URL follows the update rule |
| Config.StoredUrlNonEmpty | backend/src/features/config/controller.ts:134-159 | neither write ever stores the empty string as a URL |
| Config.DeleteSectionKeepsValid | backend/src/features/config/controller.ts:109-111 | deleting a section together with its links keeps ids unique and every link in a stored section |
| Config.DeleteLinkKeepsValid | backend/src/features/config/controller.ts:182-184 | deleting one link keeps the tables valid |
| Config.ConfigStore.SectionLinks | backend/src/features/config/controller.ts:44 | a section's links, each once, by ascending order |
| Config.ConfigStore.ProjectSections | backend/src/features/config/controller.ts:41-43 | exactly the project's sections, each once, by ascending order |
| Config.ConfigStore.ListSections | backend/src/features/config/controller.ts:38-50 | the project's sections by order, each paired with its links by order |
| Config.LinksKeepSection | backend/src/features/config/controller.ts:52-75 | adding a section leaves every link on a stored section |
| Config.ConfigStore.CreateSection | backend/src/features/config/controller.ts:52-75 | an invalid body is 400 and stores nothing; otherwise the section is appended with the trimmed name and normalised slug, one past the project's largest order, and returned with its links, of which a new section has none; the body schema is at lines 14-17 |
| Config.ConfigStore.UpdateSection | backend/src/features/config/controller.ts:77-104 | an invalid body is 400; a section outside the project is 404 "Sezione non trovata" with nothing changed; otherwise only that section changes, to the patched row, returned with exactly its links in table order; the body schema is at lines 18-21 |
| Config.ConfigStore.DeleteSection | backend/src/features/config/controller.ts:106-120 | a section outside the project is 404 with nothing changed; otherwise it is removed with its links |
| Config.ConfigStore.CreateLink | backend/src/features/config/controller.ts:123-151 | the body is checked first (400); a section outside the project is 404 "Sezione non trovata" with nothing created; otherwise the link is appended one past the section's largest order; the body schema is at lines 23-26 |
| Config.ConfigStore.UpdateLink | backend/src/features/config/controller.ts:153-177 | an invalid body is 400; a link not matched on link, section and project together is 404 "Link non trovato"; otherwise only that link changes, to the patched row; the body schema is at lines 27-30 |
| Config.ValidUrlExamples | backend/src/features/config/controller.ts:25-29 | `https://example.com` and the empty text are accepted as a link URL; `example.com` and `://x`, which have no scheme, are refused |
| Config.ConfigStore.DeleteLink | backend/src/features/config/controller.ts:179-193 | an unmatched link is 404 "Link non trovato" with nothing changed; otherwise only it is removed |
| Deliverables.BothParentsAccepted | backend/src/features/deliverables/controller.ts:8-16 | a body naming both a phase and a work package is accepted; one whose only parent is "" is refused |
| Deliverables.NewDeliverable | backend/src/features/deliverables/controller.ts:56-67 | the inserted row has the given id, project and sort order, the sent parents, type, title, description and relative date; a due date is stored exactly when sent |
| Deliverables.PatchDeliverableFields | backend/src/features/deliverables/controller.ts:90-95 | an update never changes id, project, parents or sort order; a field left out keeps its value, `null` clears a nullable field, a value replaces it |
| Deliverables.FirstColumnLowest | backend/src/features/deliverables/controller.ts:137-140 | the first column is absent exactly when the project has none, and otherwise is a project column of lowest order |
| Deliverables.ConvertedTask | backend/src/features/deliverables/controller.ts:150-160 | the created task copies the deliverable's project, title, description, due date and parents, with no start date |
| Deliverables.DeliverableStore.CreateDeliverable | backend/src/features/deliverables/controller.ts:26-77 | checks run in order: body (400), project (404 "Progetto non trovato"), named phase (400 "Fase non trovata"), named work package (400 "Work package non trovato"), then an unreadable date (a month outside 01..12 or a day outside 01..31) is the 500 the ORM gives for an Invalid Date; on success the row is appended one past the largest sort order among its work package's, else its phase's, deliverables; on any error nothing is stored; the body schema is at lines 8-16 |
| Deliverables.DeliverableStore.UpdateDeliverable | backend/src/features/deliverables/controller.ts:79-108 | an invalid body is 400; a deliverable outside the project is 404 "Deliverable non trovato"; after it an unreadable date (a month outside 01..12 or a day outside 01..31) is the 500 the ORM gives for an Invalid Date; both leave everything unchanged; otherwise only it changes, to the patched row; the body schema is at lines 18-24 |
| Deliverables.DeliverableStore.DeleteDeliverable | backend/src/features/deliverables/controller.ts:110-124 | a deliverable outside the project is 404 with nothing changed; otherwise only it is removed |
| Deliverables.DeliverableStore.ConvertDeliverableToTask | backend/src/features/deliverables/controller.ts:127-167 | a deliverable outside the project is 404; a project without columns is 400; otherwise a task is appended at the end of the lowest-order column and the deliverable table is untouched |
| Projects.SeedColumns | backend/src/features/projects/controller.ts:30-36 | the three seeded columns belong to the new project and are "Da fare", "In corso", "Completato" with orders 0, 1, 2 |
| Projects.ListingOfFreshProject | backend/src/features/projects/controller.ts:30-40 | columns appended, already in order, to a project no earlier column belongs to are exactly that project's listed columns |
| Projects.SeededListing | backend/src/features/projects/controller.ts:30-40 | after seeding a project no column refers to, its listed columns are exactly the three seeded ones, in board order |
| Projects.SeedKeepsIdsUnique | backend/src/features/projects/controller.ts:30-36 | seeding columns with fresh, distinct ids keeps column ids unique |
| Projects.ProjectStore.ListProjects | backend/src/features/projects/controller.ts:9-21 | every project exactly as often as stored, newest first, each with `_count`: the number of task rows and of diary-entry rows that name it |
| Projects.WithCounts | backend/src/features/projects/controller.ts:12-15 | each listed project is paired, position by position, with its own task and diary-entry counts |
| Projects.CountedColumns | backend/src/features/projects/controller.ts:62 | each column, position by position, with the number of task rows filed in it |
| Projects.ProjectStore.GetProject | backend/src/features/projects/controller.ts:56-74 | 404 "Progetto non trovato" exactly when no project has the id; otherwise that project, its columns by order each with the number of task rows filed in it, and its task and diary-entry counts |
| Projects.SeedColumnsFit | backend/src/features/projects/controller.ts:23-54 | the three seeded columns, under fresh distinct ids, keep column ids unique and are exactly the new project's column listing, in their seeded order; the seeded column names are at line 6 |
| Projects.ProjectStore.CreateProject | backend/src/features/projects/controller.ts:23-54 | an invalid name is 400 with nothing stored; otherwise the project and its three seeded columns are stored together and it is returned with exactly those columns, in order; the seeded column names are at line 6 |
| Projects.ProjectStore.UpdateProject | backend/src/features/projects/controller.ts:76-92 | an invalid name is 400; a missing id is the ORM's error, which answers 500; otherwise only that project's name changes, and only when sent; the name schema is at line 7 |
| Projects.ProjectStore.DeleteProject | backend/src/features/projects/controller.ts:94-102 | a missing id answers 500 with nothing changed; otherwise exactly that project is removed |
| Summary.Today | backend/src/features/summary/controller.ts:5-9 | today is the current day at midnight |
| Summary.IsOverdue | backend/src/features/summary/controller.ts:42-46 | a due instant is overdue exactly when its day is before today; the time of day plays no part |
| Summary.Overdue | backend/src/features/summary/controller.ts:47 | exactly the project's tasks with a due day before today |
| Summary.AllUpcoming | backend/src/features/summary/controller.ts:48-50 | exactly the project's dated tasks due today or later, each once, by ascending due day |
| Seqs.TakeSortedPrefix | backend/src/features/summary/controller.ts:50-51 | from a sorted list, an element left out of the first n taken means n were taken, each ordered no later than it |
| Summary.Upcoming | backend/src/features/summary/controller.ts:48-51 | the first min(20, number upcoming) of them by due day; an upcoming task left out means 20 were listed, none due later than it |
| Summary.UpcomingIsChronological | backend/src/features/summary/controller.ts:50 | for valid days a listed upcoming task is due no later than every one after it |
| Summary.CountPartition | backend/src/features/summary/controller.ts:47-61 | the counts of two disjoint conditions whose union is a third add up to its count |
| Summary.PartitionCounts | backend/src/features/summary/controller.ts:47-61 | a dated task of the project is exactly one of overdue and upcoming, an undated one neither, and overdueCount + upcomingCount is the number of dated tasks |
| Summary.ColumnCounts | backend/src/features/summary/controller.ts:55-59 | one line per column, in order, with its id, name and the number of task rows filed in that column, whatever their project |
| Summary.ColumnCountOfOwnTasks | backend/src/features/summary/controller.ts:55-59 | when every task filed in a column belongs to the project, the column's `_count` equals its number of the project's own tasks |
| Summary.ForeignTaskCounted | backend/src/features/summary/controller.ts:55-59 | a task of another project filed in one of the project's columns is counted in that column and is not among the project's tasks |
| Summary.Lines | backend/src/features/summary/controller.ts:96-101 | one line per work package, position by position |
| Relations.PhaseOf | backend/src/features/workpackages/controller.ts:24 | the phase a reference names is a stored phase with that id, and it is absent exactly when the reference is null or names no stored phase |
| Relations.PackageOf | backend/src/features/tasks/controller.ts:81 | the work package a reference names is a stored one with that id, and it is absent exactly when the reference is null or names no stored work package |
| Relations.TaskWith | backend/src/features/tasks/controller.ts:81 | a task view holds exactly the comments and exactly the attachments whose task id is the task's, one entry per stored row, and the phase and work package the task's references name |
| Relations.GetTask | backend/src/features/tasks/controller.ts:76-91 | 404 "Task non trovato" exactly when no task of the project has that id; otherwise that task, with every relation its `include` attaches |
| Relations.PhasePackages | backend/src/features/phases/controller.ts:26 | a phase's listed work packages are every work package assigned to it and no other, by ascending sort order |
| Relations.PhaseWith | backend/src/features/phases/controller.ts:25-28 | a listed phase carries every work package assigned to it and no other, by ascending sort order, and the number of tasks that name it |
| Relations.ListPhases | backend/src/features/phases/controller.ts:19-34 | exactly the project's phases, each once, by ascending sort order, each with its work packages and its task count |
| Relations.PackageViews | backend/src/features/workpackages/controller.ts:23-26 | one view per work package, in order, with the phase it names and the number of tasks that name it; the summary lists its work packages the same way at summary/controller.ts:25-28 |
| Relations.ListWorkPackages | backend/src/features/workpackages/controller.ts:17-32 | exactly the project's work packages, each once, by ascending sort order, each with its phase and its task count |
| Summary.PackageLines | backend/src/features/summary/controller.ts:96-101 | one line for each of the phase's work packages, with its task count, by ascending sort order; the packages are loaded by sort order at line 21 |
| Summary.PhaseLines | backend/src/features/summary/controller.ts:89-102 | one line per phase, in order, with its task count and its work-package lines |
| Summary.Report | backend/src/features/summary/controller.ts:53-111 | id and name of the project; totalTasks is the number of its tasks; overdueCount lists exactly the overdue tasks; overdueCount + upcomingCount is the number of dated tasks; at most 20 upcoming are listed, and 20 when more are due; column, phase and package counts come from every task row, as `_count` counts them; the diary count as given |
| Summary.GetSummary | backend/src/features/summary/controller.ts:11-115 | 404 "Progetto non trovato" exactly when no project has the id; otherwise the report of that project over its columns, phases and work packages in order, its own tasks for the lists, every task row for the `_count` figures, and its diary entries |
| Events.Minutes | backend/src/features/events/controller.ts:7 | an accepted time names a minute of the day, 0 to 1439 |
| Events.TimeTextAccepted | backend/src/features/events/controller.ts:7 | every hour 0..23 and minute 0..59, written `HH:MM` or, below ten, `H:MM`, is accepted and read back as that hour and minute |
| Events.TimeOkIsTimeText | backend/src/features/events/controller.ts:7 | conversely every accepted time is exactly such a text, so the hour is at most 23 and the minute at most 59 |
| Events.TimeExamples | backend/src/features/events/controller.ts:7 | `7:30` and `23:59` are accepted; `24:00` and `12:60` are not |
| Events.TimeKey | backend/src/features/events/controller.ts:29 | a time's place in the day lies in 0..1440, a missing time sorting after every time |
| Events.EventKeyOrder | backend/src/features/events/controller.ts:29 | for valid days the listing key orders two events exactly when the first is on an earlier day, or the same day and no later time |
| Events.ListEventsAsWritten | backend/src/features/events/controller.ts:24-35 | the code as written lists exactly the project's events, by day and then by the text of the time |
| Events.HalfPastNineAndTen | backend/src/features/events/controller.ts:7 | `9:30` and `10:00` are both accepted, at minutes 570 and 600 |
| Events.TextOrderMisplacesShortHours | backend/src/features/events/controller.ts:7-29 | a 9:30 and a 10:00 event of one day come out of the code as written with 10:00 first |
| Events.TimeOrderKeepsShortHours | backend/src/features/events/controller.ts:29 | the chronological listing puts the 9:30 event first |
| Events.TextOrderAgreesOnPadded | backend/src/features/events/controller.ts:7-29 | for two accepted `HH:MM` times, text order and time-of-day order agree exactly |
| Events.NewEvent | backend/src/features/events/controller.ts:116-125 | the inserted row has the given id and project, the parsed day, the sent type and name, and the time and notes as sent (absent is null); it satisfies the schema |
| Events.PatchEventFields | backend/src/features/events/controller.ts:147-152 | an update keeps id and project; each field left out keeps its value, `null` clears time or notes, a value replaces it; a row meeting the schema still does; the patch schema is at lines 16-22 |
| Events.PatchEventIdempotent | backend/src/features/events/controller.ts:147-156 | applying an update twice equals applying it once, and an empty body changes nothing |
| Events.ListingIsChronological | backend/src/features/events/controller.ts:29-69 | any listing of stored events is chronological: earlier day first, then earlier time, no time last |
| Events.EventStore.ListEvents | backend/src/features/events/controller.ts:24-35 | exactly the project's events, each as often as stored, in chronological order |
| Events.EventStore.CalendarDaysWithEvents | backend/src/features/events/controller.ts:38-59 | the month parameters' errors exactly as the shared check gives them; otherwise a text is listed exactly when some event of the project falls on that day within the month |
| Events.EventStore.GetFutureEvents | backend/src/features/events/controller.ts:62-76 | at most 15 events, exactly min(15, number of project events from today on); each is the project's and dated today or later; chronological; an eligible event left out means 15 were listed and none of them is later |
| Events.EventStore.GetEventsByDate | backend/src/features/events/controller.ts:78-95 | the date parameter's error exactly as the shared check gives it, the 400 for a missing or malformed text and the 500 of an Invalid Date for an unreadable one; otherwise exactly the project's events of that day, by time, no time last |
| Events.FutureEventsAsWritten | backend/src/features/events/controller.ts:66-70 | the code as written lists min(15, number eligible) events, each the project's and dated today or later, ordered by day and then by the text of the time |
| Events.FutureTextOrderMisplacesShortHours | backend/src/features/events/controller.ts:68-69 | a 9:30 and a 10:00 event of today come out of the code as written with 10:00 first, while the chronological listing puts 9:30 first |
| Events.EventsOnDayAsWritten | backend/src/features/events/controller.ts:87-90 | the code as written lists exactly the project's events of that day, ordered by the text of the time |
| Events.ByDateTextOrderMisplacesShortHours | backend/src/features/events/controller.ts:87-90 | a 9:30 and a 10:00 event of one day come out of the code as written with 10:00 first, while the chronological listing puts 9:30 first |
| Events.EventStore.CreateEvent | backend/src/features/events/controller.ts:97-134 | checks in order: ORM client lacks the model (500 PRISMA_CLIENT_OUTDATED), body invalid (400), project missing (404 "Progetto non trovato"), an unreadable date (a month outside 01..12 or a day outside 01..31) is the 500 the ORM gives for an Invalid Date; on success exactly the new row is appended; on any error nothing changes; the body schema is at lines 9-15 |
| Events.EventStore.UpdateEvent | backend/src/features/events/controller.ts:136-165 | an invalid body is 400; an event outside the project is 404 "Evento non trovato"; after it an unreadable date (a month outside 01..12 or a day outside 01..31) is the 500 the ORM gives for an Invalid Date; both leave everything unchanged; otherwise only that event changes, to the patched row; the body schema is at lines 16-22 |
| Events.EventStore.DeleteEvent | backend/src/features/events/controller.ts:167-181 | no event of the project with that id is 404 with nothing changed; otherwise exactly that event is removed |
| Calendar.ParseIntReadsDigits | backend/src/features/events/controller.ts:47-48 | `parseInt` skips leading whitespace, reads the longest run of digits and ignores the rest |
| Calendar.ParseIntReadsNegative | backend/src/features/diary/controller.ts:42-43 | a minus sign before the digits negates their value |
| Calendar.ParseIntNaN | backend/src/features/events/controller.ts:47-48 | after the whitespace anything but a sign or a digit is NaN |
| Calendar.ParseIntOfDecimal | backend/src/features/events/controller.ts:47-48 | reading back the decimal text of a natural number gives the number |
| Calendar.Decimal | backend/src/features/events/controller.ts:47-48 | the decimal text of a number is a non-empty run of digits with no leading zero |
| Calendar.DecimalValue | backend/src/features/events/controller.ts:47-48 | the digits of that text have the number as their value |
| Calendar.FullYear | backend/src/features/events/controller.ts:47-48 | `new Date(y, …)` reads a year 0..99 as 1900..1999 and any other year as itself |
| Calendar.MonthSpan | backend/src/features/events/controller.ts:41-48 | a missing or empty `year` or `month` is exactly the 400 "Parametri year e month richiesti"; any other error is exactly a NaN or a bound outside the range of JavaScript dates, each ending in the 500 of an Invalid Date; otherwise both bounds are valid days inside that range |
| Calendar.MonthSpanBeyondRange | backend/src/features/events/controller.ts:47-48 | a year past 275760 has no month JavaScript can represent: the span is the 500 of an Invalid Date |
| Calendar.MonthSpanIsMonth | backend/src/features/diary/controller.ts:42-43 | the two bounds are the first and the last day of one month: month m of the year read, an out-of-range month carried into the year |
| Calendar.MonthSpanOfCalendarQuery | backend/src/features/events/controller.ts:47-48 | for a year from 100 up to 275759 and a month 1..12 written in decimal, the span is exactly that month |
| Calendar.InSpanIsSameMonth | backend/src/features/events/controller.ts:50 | the days a month's span admits are exactly the valid days of that month |
| Calendar.DateParam | backend/src/features/events/controller.ts:81-86 | a missing parameter or one not `YYYY-MM-DD` is exactly the 400 "Parametro date richiesto (YYYY-MM-DD)"; a well-formed text with a month outside 01..12 or a day outside 01..31 is exactly the 500 of an Invalid Date; otherwise the valid day that text names |
| Calendar.Dedup | backend/src/features/events/controller.ts:52 | each value of the input exactly once and nothing else |
| Calendar.Padded | backend/src/features/events/controller.ts:54 | exactly `w` digits |
| Calendar.PaddedValue | backend/src/features/events/controller.ts:54 | a number below 10^w written in `w` padded digits reads back as that number |
| Calendar.DayText | backend/src/features/events/controller.ts:54 | the text of a day in the years 0 to 9999 is a `YYYY-MM-DD` string |
| Calendar.DayTextRoundTrip | backend/src/features/events/controller.ts:54-86 | a listed day's text is a readable `YYYY-MM-DD` string, and reading it back with `new Date` gives the day again |
| Calendar.DayTextInjective | backend/src/features/events/controller.ts:54 | two days of the years 0 to 9999 with the same text are the same day |
| Calendar.DayTexts | backend/src/features/events/controller.ts:54 | the text of each day, position by position |
| Calendar.SpanDays | backend/src/features/events/controller.ts:49-53 | each day of the span among the rows' days, once, and nothing else |
| Calendar.DayTextsDistinct | backend/src/features/events/controller.ts:52-54 | distinct days of the years 0 to 9999 have distinct texts |
| Calendar.DaysIn | backend/src/features/events/controller.ts:49-55 | a text is listed exactly when some day in the span has it; no text twice while the days lie in the years 0 to 9999 |
| Calendar.RowDates | backend/src/features/diary/controller.ts:44-48 | a day is listed exactly when some row in scope falls on it |
| Calendar.RowDays | backend/src/features/diary/controller.ts:44-50 | a text is listed exactly when some row in scope falls on that day within the span; no text twice while those days lie in the years 0 to 9999 |
| Calendar.RowDaysMembers | backend/src/features/diary/controller.ts:44-50 | the texts of a list of days that covers the rows' days are exactly those of the rows in the span |
| Diary.NewEntry | backend/src/features/diary/controller.ts:80-82 | the inserted entry has the given id, project and creation instant, the parsed day and the content as sent (absent is null); it is well formed |
| Diary.PatchEntryFields | backend/src/features/diary/controller.ts:116-118 | an update keeps id, project and creation instant, sets the day only when a date is sent and the content only when it is not left out, and keeps the entry well formed; the patch schema is at lines 12-15 |
| Diary.PatchEntryIdempotent | backend/src/features/diary/controller.ts:116-122 | applying an update twice equals applying it once, and an empty body changes nothing |
| Diary.IdSurvives | backend/src/features/diary/controller.ts:157 | deleting one entry keeps every other entry id |
| Diary.DeleteEntryKeepsValid | backend/src/features/diary/controller.ts:157 | deleting an entry together with its images and comments keeps ids unique and every image and comment attached to a stored entry |
| Diary.RemoveImageKeepsValid | backend/src/features/diary/controller.ts:203 | deleting one image keeps the tables valid |
| Diary.FreshEntryOwnsNothing | backend/src/features/diary/controller.ts:81-84 | an entry id no stored entry has owns no image and no comment |
| Diary.Gather | backend/src/features/diary/controller.ts:24 | an entry together with exactly the images and comments that belong to it |
| Diary.GatherAll | backend/src/features/diary/controller.ts:24 | each listed entry with its own images and comments, position by position |
| Diary.NewestFirstViews | backend/src/features/diary/controller.ts:21-25 | the views of a project's entries, newest day first: each entry of the project once, with its own images and comments |
| Diary.NewestFirstListing | backend/src/features/diary/controller.ts:21-25 | the project's entries newest day first: each of them, and no other |
| Diary.OldestFirstListing | backend/src/features/diary/controller.ts:65-69 | the project's entries of one day, each of them and no other, oldest creation first |
| Diary.UnlinkImages | backend/src/features/diary/controller.ts:152-156 | every image's file is gone afterwards, a failing unlink being ignored, and no other file is touched |
| Diary.DiaryStore.View | backend/src/features/diary/controller.ts:100 | an entry with exactly its own images and comments |
| Diary.DiaryStore.Views | backend/src/features/diary/controller.ts:24-68 | each entry with its own images and comments, position by position |
| Diary.DiaryStore.ListEntries | backend/src/features/diary/controller.ts:18-30 | exactly as many views as the project has entries; each is a project entry with its own images and comments; every project entry appears; newest day first |
| Diary.DiaryStore.CalendarDaysWithEntries | backend/src/features/diary/controller.ts:33-54 | the month parameters' errors exactly as the shared check gives them; otherwise a text is listed exactly when some entry of the project falls on that day within the month |
| Diary.DiaryStore.GetEntriesByDate | backend/src/features/diary/controller.ts:56-74 | the date parameter's error exactly as the shared check gives it; otherwise exactly as many views as the project has entries that day, each one of them with its images and comments, oldest creation first |
| Diary.DiaryStore.GetEntry | backend/src/features/diary/controller.ts:95-110 | 404 "Resoconto non trovato" exactly when the project has no entry with that id; otherwise that entry with its images and comments |
| Diary.AddEntryKeepsValid | backend/src/features/diary/controller.ts:76-93 | inserting a well-formed entry under an id no entry has keeps the diary tables valid |
| Diary.DiaryStore.CreateEntry | backend/src/features/diary/controller.ts:76-93 | an invalid body is 400 with nothing stored; then an unreadable date (a month outside 01..12 or a day outside 01..31) is the 500 the ORM gives for an Invalid Date, with nothing stored; otherwise exactly the new entry is appended and returned with no images and no comments; images and comments are untouched; the body schema is at lines 8-11 |
| Diary.DiaryStore.UpdateEntry | backend/src/features/diary/controller.ts:112-139 | an invalid body is 400; then an unreadable date (a month outside 01..12 or a day outside 01..31) is the 500 the ORM gives for an Invalid Date, before the row is looked for; no entry of the project with that id is 404 with nothing changed; otherwise only that entry changes, to the patched row, returned with its images and comments; the body schema is at lines 12-15 |
| Diary.DiaryStore.DeleteEntry | backend/src/features/diary/controller.ts:141-162 | no entry of the project with that id is 404 with nothing changed on disk or in the tables; otherwise the entry, its images and its comments are removed and exactly its images' files are unlinked |
| Diary.DiaryStore.AddImage | backend/src/features/diary/controller.ts:164-185 | no file is 400 "Nessun file caricato", checked first; an entry outside the project is 404; otherwise an image with the client's file name and the path under the uploads directory is appended |
| Diary.DiaryStore.RemoveImage | backend/src/features/diary/controller.ts:187-208 | an image not of that entry of the project is 404 "Immagine non trovata" with nothing changed; otherwise exactly that image's row and file are removed |
| Diary.DiaryStore.AddComment | backend/src/features/diary/controller.ts:210-230 | content missing or outside 1..2000 UTF-16 code units is 400; an entry outside the project is 404; otherwise exactly the new comment is appended; the body schema is at line 16 |
| RelativeDate.IsRelativeDate | backend/src/lib/relativeDate.ts:7-11 | absent and empty input are not relative, and anything recognised starts, once trimmed, with `T0` in either case |
| RelativeDate.ParseRelativeDate | backend/src/lib/relativeDate.ts:18-46 | absent and empty input give null; every date it gives is a valid day at midnight, never before the day of `t0` |
| RelativeDate.ParseDateOrRelative | backend/src/lib/relativeDate.ts:52-67 | a marker is only ever the trimmed input and only for a recognised relative text; a date without a marker comes only from a `YYYY-MM-DD` text; without `t0` a relative text gets no date |
| RelativeDate.AdvanceNotBefore | backend/src/lib/relativeDate.ts:34-41 | moving a day forward by N days, weeks, months or years never gives an earlier day |
| RelativeDate.UnitWordStartsWithLetter | backend/src/lib/relativeDate.ts:26 | every unit word starts with a letter, neither a digit nor whitespace |
| RelativeDate.MatchOffsetComplete | backend/src/lib/relativeDate.ts:26-29 | every text of the shape `T0 + digits unit` is read with its own number and unit |
| RelativeDate.MatchOffsetSound | backend/src/lib/relativeDate.ts:26 | every text the reader accepts has that shape |
| RelativeDate.T0IsMidnight | backend/src/lib/relativeDate.ts:20-25 | `T0` or `t0`, with any surrounding whitespace, is midnight of `t0` |
| RelativeDate.OffsetResolves | backend/src/lib/relativeDate.ts:19-45 | a text whose trimmed form the expression reads as N and a unit is not `T0`, and resolves to midnight of `t0` moved by N of that unit |
| RelativeDate.OffsetRejected | backend/src/lib/relativeDate.ts:19-27 | a non-empty text whose trimmed form is neither `T0` nor read by the expression resolves to null |
| RelativeDate.DaysAndWeeks | backend/src/lib/relativeDate.ts:34-37 | `T0+N giorni` is N days after midnight of `t0`, `T0+N settimane` 7N days after |
| RelativeDate.ResolvedImpliesRelative | backend/src/lib/relativeDate.ts:10-27 | every text the resolver evaluates, except bare lower-case `t0`, is recognised as relative |
| RelativeDate.LowerCaseT0Dropped | backend/src/lib/relativeDate.ts:10-58 | bare `t0` resolves, is not recognised, and so the combined reader gives neither date nor marker |
| RelativeDate.OneDigitOffset | backend/src/lib/relativeDate.ts:26-29 | `T0+<digit><word>` is read as that digit and word, or rejected when the word is not a unit |
| RelativeDate.SingularNotUnit | backend/src/lib/relativeDate.ts:15-26 | no six-letter word ending in `o` and no nine-letter word ending in `a`, in either case, is a unit word of the expression |
| RelativeDate.MesiIsMonths | backend/src/lib/relativeDate.ts:26-38 | `mesi` is read as the month unit |
| RelativeDate.OneDigitResolves | backend/src/lib/relativeDate.ts:18-45 | `T0+<digit><word>` resolves to midnight of `t0` moved by the digit's value in the word's unit, or to null when the word is no unit |
| RelativeDate.SingularDayRejected | backend/src/lib/relativeDate.ts:15-27 | `T0+1giorno` resolves to null |
| RelativeDate.SingularWeekRejected | backend/src/lib/relativeDate.ts:15-27 | `T0+1settimana` resolves to null |
| RelativeDate.ThreeMonths | backend/src/lib/relativeDate.ts:38-39 | `T0+3mesi` is midnight of `t0` with its month moved forward by three |
| RelativeDate.RelativeWithoutAnchor | backend/src/lib/relativeDate.ts:58-59 | a relative text with no `t0` gives only its trimmed marker |
| RelativeDate.RelativeWithAnchor | backend/src/lib/relativeDate.ts:58-61 | a relative text with `t0` gives its resolved date, possibly null, and its trimmed marker |
| RelativeDate.MalformedOffset | backend/src/lib/relativeDate.ts:10-61 | `T0+xyz` is recognised as relative but resolves to no date |
| RelativeDate.IsoIgnoresAnchor | backend/src/lib/relativeDate.ts:63-64 | a `YYYY-MM-DD` text is that day at midnight with no marker, whatever `t0` is |
| ApiClient.RequestUrl | frontend/src/api/client.ts:5-11 | a path starting with `http` is fetched as it is, any other path under `/api` |
| ApiClient.UploadsUrlKeepsPath | frontend/src/api/client.ts:61-64 | the path is kept unaltered as the end of the URL, behind at most one added character |
| ApiClient.UploadsUrlRooted | frontend/src/api/client.ts:61-64 | every returned URL starts with `http` or "/" |
| ApiClient.UploadsUrlIdempotent | frontend/src/api/client.ts:61-64 | applying it to its own result changes nothing |
| ApiClient.StoredPathIsRooted | frontend/src/api/client.ts:63 | a stored upload path such as `uploads/a.png` is served from `/uploads/a.png` |
| AppStore.FetchErrorText | frontend/src/store/useAppStore.ts:27 | a thrown Error gives its own message, anything else "Errore caricamento progetti" |
| AppStore.RenamedSpec | frontend/src/store/useAppStore.ts:41-43 | renaming keeps every entry in place with its id and creation time, and changes only the names of the entries with that id |
| AppStore.RemovedExactly | frontend/src/store/useAppStore.ts:48 | the filtered list holds exactly the entries without that id, and a list without that id is unchanged |
| AppStore.ProjectsStore.constructor | frontend/src/store/useAppStore.ts:15-18 | the store starts with no projects, not loading and no error |
| AppStore.ProjectsStore.StartFetch | frontend/src/store/useAppStore.ts:21 | before the request: loading, no error, projects kept |
| AppStore.ProjectsStore.SettleFetch | frontend/src/store/useAppStore.ts:22-30 | after the request: loading off; a result replaces the projects; a throw keeps them and records the error text |
| AppStore.ProjectsStore.FetchProjects | frontend/src/store/useAppStore.ts:20-31 | loading ends false; on success the projects are the result and no error is set; on failure the projects are kept and the error text recorded |
| AppStore.ProjectsStore.CreateProject | frontend/src/store/useAppStore.ts:33-37 | the created project goes first, in front of the earlier list; a failed call changes nothing; loading and error are untouched |
| AppStore.ProjectsStore.UpdateProject | frontend/src/store/useAppStore.ts:39-44 | on success the list is the renamed one; a failed call changes nothing |
| AppStore.ProjectsStore.DeleteProject | frontend/src/store/useAppStore.ts:46-49 | on success the list is filtered of that id; a failed call changes nothing |

## Left out

- Express routing, server start-up, CORS, static file serving and the React view components: these are wiring and presentation, not logic.
- The `fetch` calls of `api` and `apiUpload`, with their handling of 204 and non-OK responses: this is network I/O. Only the URLs are modelled.
- The ORM itself. Tables are sequences, and a `$transaction` is one atomic method body. Rows included through relations (`include: { comments, images, … }`) come in table order.
- The ORM's own error texts, such as `Projects.RecordMissing`, and the message it gives for an Invalid Date in a `where` clause. Only the 500 status they lead to is modelled.
- Foreign-key checks.
  - A write the database would refuse keeps no such refusal in the model, e.g. `createEntry` on an unknown project, or a `columnId` that names no column.
  - `deleteTask`, `deleteEntry` and `deleteSection` delete only the parent row. The model removes a task's comments and attachments, an entry's images and comments and a section's links with it, taking these cascades from the database schema's `onDelete: Cascade`. The schema is not part of this model.
  - Other cascades the schema declares are not modelled: deleting a project, or a phase's work packages being detached.
  - Board.ColumnStore.DeleteColumn: `deleteColumn` deletes only the column row. What then happens to the tasks filed in it is the schema's `onDelete` rule for `Task.columnId`, which is not part of this model; the model leaves the task table unchanged.
- The `console.error` logging of a non-AppError in the error middleware (`errorHandler.ts` lines 28-29): it writes to the server's terminal and changes no response.
- zod's error messages: a refused body is a 400 with code VALIDATION_ERROR and no message text.
- A `null` sent for a body field the schema only allows to be absent: zod refuses it, and the model's request types cannot express it.
- A query parameter sent twice: Express would hand over an array, and `req.query.year as string` would then not be a string.
- Time zones. `new Date("YYYY-MM-DD")` is UTC while `setHours` works in local time. Every date in the model is one civil day, and an instant is a day plus milliseconds.
- Dates.IsoDate: a `YYYY-MM-DD` text with a month outside 01..12 or a day outside 01..31 is an Invalid Date, and each handler answers it with a 500 (`Dates.IsoReadable`, `Calendar.DateParam`); IsoDate itself is applied only to readable texts. A readable day past its month's end, such as `2024-02-30`, is carried into the next month as V8 does; the model does not cover engines that refuse it.
- StoredDate: it is applied only after the handler has answered an unreadable date with a 500, so its result is always a day.
- Dates.MakeDate: it returns a day for any year. JavaScript dates end 8.64e15 ms either side of 1970 (20 April 271821 BC to 13 September 275760), and beyond that `new Date(y, m, d)` is an Invalid Date. `Calendar.MonthSpan` checks both bounds against that range, so `calendarDaysWithEvents` and `calendarDaysWithEntries` answer 500 for such a year; the other callers of MakeDate do not check it.
- RelativeDate.ParseRelativeDate: an offset that carries the day past 13 September 275760, such as `T0+300000anni`, gives an Invalid Date in the source; the model still returns that day.
- RelativeDate.ParseDateOrRelative: its `YYYY-MM-DD` branch keeps an unreadable text (month 13, day 00) as a date, where the source's `new Date` gives an Invalid Date.
- The range of JavaScript dates is taken in UTC; the server's time zone moves its local-time edges by up to a day.
- Config.ValidUrl: zod's `.url()` runs the WHATWG URL parser; the model accepts any text with a scheme followed by `:`. `Config.ConfigStore.CreateLink` and `Config.ConfigStore.UpdateLink` therefore store some texts, such as `http:`, that the source refuses with a 400.
- Phases.PatchPhase and WorkPackages.PatchWorkPackage: a JSON number is a double, so a `sortOrder` past 2^53 loses precision before zod sees it; the model keeps the integer as sent. Values above 2^31 - 1 are the ORM's 500 (`Common.MaxInt`).
- Ordering.NextOrder: appending past an order of 2^31 - 1 would overflow the 32-bit column; the model does not bound the appended order.
- Calendar.ParseInt: reads digit runs of any length exactly. JavaScript's `parseInt` loses precision beyond 2^53.
- Calendar.DayText: for years outside 0 to 9999, `toISOString()` uses the extended year form `±YYYYYY`. The model keeps its first ten characters but proves the round trip and uniqueness only for years 0 to 9999.
- Summary.DueKey: `getTime()` is modelled as a day number. Every due date is the start of a day, so the order is the same.
- Summary.Report: the `column`, `phase` and `workPackage` relations attached to each overdue and upcoming task are not modelled. The views are the task rows themselves.
- Tasks.TaskStore.CreateTask, Tasks.TaskStore.UpdateTask and Tasks.TaskStore.MoveTask: they return the task row. The comments, attachments, phase and work package their `include` attaches are what Relations.TaskWith builds from the stored tables.
- WorkPackages.WorkPackageStore.CreateWorkPackage, WorkPackages.WorkPackageStore.UpdateWorkPackage and WorkPackages.WorkPackageStore.ReorderWorkPackages: they return the rows without the `phase` their `include` attaches, which is Relations.PhaseOf of the row's reference.
- `listTasks`: it orders by `columnId` and then by `order`. The first key is a comparison of opaque id strings under the database's collation, which the model does not fix.
- The tasks nested inside each column by `listColumns`. `Board.ColumnStore.ListColumns` returns the columns only, and the tasks of a column are `Tasks.ColumnListing`.
- The `fromIdx === -1` branch of `moveTask`. It cannot be taken: the task was just found in that same column.
- The read-then-write races of `max + 1` appends, and of `updateMany` followed by `findUnique`: these are concurrency issues.
- The full-text search controller: its case-insensitivity depends on the database collation. multer's storage configuration and its random file names are not modelled either: the stored file name is a parameter.
- `UPLOADS_DIR` and the server's working directory.
  - The directory is a parameter, defaulting to "uploads".
  - `path.join(process.cwd(), …)` is taken as the stored relative path itself.
- The bulk JSON import, the `T0` recompute and the structure reset: their source is not part of this model. Only the relative-date resolver they call is modelled.

## Findings

| source | as written | input that shows it | evidently intended | confidence | as-written member | corrected member |
|---|---|---|---|---|---|---|
| backend/src/features/events/controller.ts:7-29 | `listEvents` orders a day's events by the text of their `time`, but `timeRegex` accepts an unpadded hour | two events on one day at "9:30" and "10:00": as text "10:00" sorts first | events listed in time-of-day order | not executed | Events.TextOrderMisplacesShortHours | Events.EventStore.ListEvents |
| backend/src/features/events/controller.ts:66-70 | `getFutureEvents` orders by day and then by the text of `time`, and keeps the first 15 | two events today at "9:30" and "10:00": "10:00" is listed first, and with 14 events ahead of them the 9:30 one is the one cut off | today's events in time-of-day order before `take: 15` | not executed | Events.FutureTextOrderMisplacesShortHours | Events.EventStore.GetFutureEvents |
| backend/src/features/events/controller.ts:87-90 | `getEventsByDate` orders a day's events by the text of `time` | two events on the day at "9:30" and "10:00": "10:00" is listed first | the day's events in time-of-day order | not executed | Events.ByDateTextOrderMisplacesShortHours | Events.EventStore.GetEventsByDate |

The as-written orders are `Events.ListEventsAsWritten`, `Events.FutureEventsAsWritten` and `Events.EventsOnDayAsWritten`. The three `…MisplacesShortHours` lemmas show each on the two events above.

The rest of the model lists events by time of day. `Events.EventStore.ListEvents`, `GetFutureEvents` and `GetEventsByDate` prove that order for every listing. `Events.TimeOrderKeepsShortHours` puts the 9:30 event first.

`Events.TextOrderAgreesOnPadded` shows that the two orders agree whenever both times are written `HH:MM`, as the calendar's time input sends them.
