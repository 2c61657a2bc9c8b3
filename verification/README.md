# Course portal pages: a Dafny model

This project models the logic of a course portal's React pages. Each page is modelled as pure
functions over immutable records. Network calls are not made: each request is a value the
page emits, and each response is an input, `Succeeded(data)` or `Failed`.

The pages modelled:

- **The public catalog** (`Catalog`):
  - the filter record and its two transitions;
  - the query string built from the truthy filter fields;
  - normalisation of a bare-array response and of a `{content, totalPages}` envelope;
  - the `courses`/`error`/`loading` updates and the render guards.
- **The admin course table** (`AdminCourses`):
  - the string-valued draft built from a course;
  - the payload built back from the draft;
  - the dialog state machine;
  - create, update and delete routing.
- **The stand-alone edit form** (`EditCourseForm`):
  - a JavaScript object filled by a load and edited key by key;
  - sent as an update whose list fields drop blank lines.
- **The student dashboard** (`StudentDashboard`):
  - progress, status and difficulty colours;
  - the fallback values;
  - the statistics cards;
  - the recent-activity list;
  - the load of both requests.
- **The admin dashboard** (`AdminDashboard`): the two view flags and which panel they show.
- **The admin enrollment list** (`AdminEnrollments`):
  - the case-insensitive status colour;
  - the dash shown for missing ids;
  - the render priority.

Support modules model the JavaScript the pages lean on:

- `JsText`:
  - `split` and `join` on one separator, with `"".split('\n')` being `[""]`;
  - `trim`, over the ECMAScript white-space and line-terminator set;
  - `filter`;
  - ASCII `toLowerCase`.
- `JsNumber`:
  - `Number#toString` for integers;
  - `parseInt`, as section 19.2.5 of ECMAScript describes it: leading white space, a sign, a `0x` prefix, the longest digit run, and `NaN`.
- `JsValue`: JSON values, truthiness and `String(v)`.
- `CourseModel`: the course record and its JSON object.
- `Http`: requests and outcomes.
- `Colors`: the chip colours.

Behaviour of the code worth knowing, which the model keeps:

- The catalog does not suppress stale responses. `Courses.jsx` carries no request token, so whichever response arrives last decides the listing, and the first response to arrive already clears `loading` (`Catalog.LastResponseWins`).
- The admin dialog validates nothing before it sends. It submits from a button's `onClick` outside any `<form>`, so the results of `parseInt`/`parseFloat` go out as they are, `NaN` included (`AdminCourses.ToPayload`). The edit form's inputs sit inside a `<form>`: the browser fires `handleSubmit` only when its six required inputs show text (`EditCourseForm.Save`). `handleSubmit` itself then sends the parsed numbers unchecked (`EditCourseForm.ToUpdate`).
- List lines are not trimmed.
  - The admin dialog drops only empty lines (`AdminCourses.jsx:116-117`), and keeps white-space lines.
  - The edit form drops lines that are blank after trimming, but sends the kept lines untrimmed (`EditCourseForm.DialogKeepsWhiteSpaceLines`).
- The admin table refetches by itself after a successful write or delete. A failed write or delete only logs: the dialog stays open and no error is shown.
- An envelope without `content` is stored as it is, not as an array. Rendering it then fails at `courses.map` (`Catalog.Render`).

## Model

| member | source | states |
|---|---|---|
| Catalog.SetFilter | src/pages/Courses.jsx:85-91 | the edited filter takes the new value, the other two filters and the page size are kept, and the page becomes 1 |
| Catalog.SetPage | src/pages/Courses.jsx:93-98 | only the page changes; all three filters and the page size are kept |
| Catalog.FilterChangeForgetsPage | src/pages/Courses.jsx:85-98 | a filter edit after a page change gives the same filters as the edit alone |
| Catalog.Query | src/pages/Courses.jsx:66-71 | at most one parameter per field and none with an empty value; `Catalog.QueryHoldsTruthyFields` fixes which keys appear and in what order, and `Catalog.QueryValues` what each holds |
| Catalog.QueryHoldsTruthyFields | src/pages/Courses.jsx:66-71 | the query's keys are exactly the truthy fields' keys, in record order, each once; empty strings and a page or size of 0 never appear |
| Catalog.QueryValues | src/pages/Courses.jsx:66-73 | every parameter's value is the non-empty `String` form of the field its key names |
| Catalog.Normalise | src/pages/Courses.jsx:74-75 | a bare array gives itself and one page; an envelope gives its `content` (any array counts), or else a non-array; an envelope's non-zero page count is kept, a missing or 0 one becomes 1, so the count is never 0; a `null` body fails |
| Catalog.BareAndEnvelopeAgree | src/pages/Courses.jsx:74-75 | an envelope with a list and no page count (or 0) normalises like the bare list |
| Catalog.Fetch | src/pages/Courses.jsx:63-73 | starting a fetch raises `loading`, changes nothing else and sends the current filters' query |
| Catalog.ChangeFilter | src/pages/Courses.jsx:85-91 | a filter edit updates the filters, keeps the listing and sends the query of the new filters, which always holds `page=1` |
| Catalog.ChangePage | src/pages/Courses.jsx:93-98 | a page change updates only the page, keeps the listing while the new fetch runs, and sends the query of the new filters |
| Catalog.Complete | src/pages/Courses.jsx:74-82 | success stores the normalised listing and clears the error; failure or a `null` body sets the fixed message and keeps the listing; `loading` drops and the filters are kept |
| Catalog.LastResponseWins | src/pages/Courses.jsx:63-83 | the last response to arrive decides the listing whatever arrived before it, and the first response clears `loading` while another request is in flight |
| Catalog.Render | src/pages/Courses.jsx:113-317 | spinner iff loading with no courses; alert iff error; pagination iff more than one page; empty message iff not loading and no courses; a non-array listing fails to render |
| Catalog.SpinnerExcludesEmptyMessage | src/pages/Courses.jsx:113-317 | the empty message is never shown while loading, and the page mounts on the spinner |
| Catalog.RunStaysReachable | src/pages/Courses.jsx:36-98 | after any sequence of edits, page choices from 1 up and responses, the page is at least 1, the size stays 12, the page count is never 0, and every query names a page and `limit=12` |
| Colors.DifficultyColor | src/pages/Courses.jsx:100-111 | Beginner, Intermediate and Advanced get success, warning and error, and anything else gets default, each as an if-and-only-if |
| AdminCourses.ToDraft | src/pages/AdminCourses.jsx:72-86 | text fields copied; the duration and price texts parse back to the course's numbers; a missing thumbnail is empty; a missing list is empty; a non-empty newline-free list splits back into itself |
| AdminCourses.ToPayload | src/pages/AdminCourses.jsx:112-118 | every payload list holds only non-empty, newline-free lines; by `AdminCourses.DraftPayloadRoundTrip` an untouched course form sends the course's own texts and numbers back, and by `AdminCourses.ListRoundTrip` a list comes back less only its empty entries, in order |
| AdminCourses.Lines | src/pages/AdminCourses.jsx:116-117 | a payload list holds only non-empty, newline-free lines |
| AdminCourses.ListRoundTrip | src/pages/AdminCourses.jsx:84-117 | a newline-free list, absent or not, comes back from draft and payload with only its empty entries removed, in order; an absent list comes back empty |
| AdminCourses.DraftPayloadRoundTrip | src/pages/AdminCourses.jsx:72-118 | submitting an untouched course form sends its text fields and thumbnail unchanged, its duration as its own number, its price text, and its lists less their empty entries |
| AdminCourses.SetField | src/pages/AdminCourses.jsx:261-305 | an input's change sets its own field and no other |
| AdminCourses.CoursePath | src/pages/AdminCourses.jsx:122 | the course path is the collection path and a slash followed by text that parses back to the id |
| AdminCourses.Loaded | src/pages/AdminCourses.jsx:60-70 | success replaces the table and clears the error; failure sets `Failed to load courses.` and keeps the table; `loading` ends; the dialog is untouched |
| AdminCourses.OpenDialog | src/pages/AdminCourses.jsx:72-103 | the dialog opens; with a course it edits that course from its draft, without one it creates from the empty form |
| AdminCourses.CloseDialog | src/pages/AdminCourses.jsx:105-108 | the dialog closes and forgets the course; the table and the form text are kept |
| AdminCourses.Submit | src/pages/AdminCourses.jsx:110-131 | the payload goes by PUT to the edited course's path or by POST to the collection; success closes the dialog and refetches, failure changes nothing and sends nothing more |
| AdminCourses.DeleteCourse | src/pages/AdminCourses.jsx:133-142 | nothing is sent without confirmation; a confirmed delete goes to the course's path and refetches only on success; the state is never touched |
| AdminCourses.RunStaysConsistent | src/pages/AdminCourses.jsx:37-142 | for courses whose duration and price are numbers: after any sequence of actions and responses a closed dialog edits no course, and once a response has arrived `loading` stays off |
| EditCourseForm.JoinedField | src/pages/EditCourseForm.jsx:35-36 | an absent or `null` list gives the empty text, an array its newline join, and any other value fails |
| EditCourseForm.Load | src/pages/EditCourseForm.jsx:30-40 | a successful load copies every response key and adds the two list texts; a failed request or a non-array list leaves the form as it was |
| EditCourseForm.InputChange | src/pages/EditCourseForm.jsx:45-47 | the named key takes the typed text and every other key is kept |
| EditCourseForm.NonBlankLines | src/pages/EditCourseForm.jsx:56-57 | an update list holds only lines that are not blank after trimming, untrimmed and newline-free |
| EditCourseForm.ToUpdate | src/pages/EditCourseForm.jsx:52-58 | the update is built iff both list fields are text; it keeps the other keys as they are, parses duration and price from their `String` forms, and splits the lists |
| EditCourseForm.Submit | src/pages/EditCourseForm.jsx:49-63 | once `handleSubmit` runs: at most one request, the PUT to `/api/courses/{courseId}`, sent iff the update can be built; the form closes iff it was sent and succeeded |
| EditCourseForm.Save | src/pages/EditCourseForm.jsx:76-188 | the save button sends the PUT iff the six required inputs all show text and the update can be built; otherwise nothing is sent and the form stays |
| EditCourseForm.DefaultsAreBlocked | src/pages/EditCourseForm.jsx:16-27 | the inputs are named after the defaults' keys; saving the defaults sends nothing, since the title is empty |
| EditCourseForm.LoadedCourseSaves | src/pages/EditCourseForm.jsx:29-188 | a loaded course with non-empty title, description, instructor and category passes the required check and is sent |
| EditCourseForm.ListRoundTrip | src/pages/EditCourseForm.jsx:35-57 | a list without line breaks or blank entries is joined and split back into exactly itself |
| EditCourseForm.SubmitAlwaysSends | src/pages/EditCourseForm.jsx:16-58 | from the defaults, whatever loads and edits happen, the list fields stay text, so every run of `handleSubmit` sends its request and the save button sends iff the required inputs show text |
| EditCourseForm.LoadCourse | src/pages/EditCourseForm.jsx:33-37 | loading a course's object gives that object with its lists joined by newlines |
| EditCourseForm.UpdateOfLoaded | src/pages/EditCourseForm.jsx:52-58 | a loaded object with clean lists is sent back with those lists, its other keys and its parsed numbers |
| EditCourseForm.LoadSubmitRoundTrip | src/pages/EditCourseForm.jsx:29-58 | loading a course and submitting it untouched sends its lists, its duration, its price text and every other field unchanged |
| EditCourseForm.DialogKeepsWhiteSpaceLines | src/pages/EditCourseForm.jsx:56-57 | the form's list is always the admin dialog's list less its white-space lines |
| EditCourseForm.SpaceLineSeparatesForms | src/pages/EditCourseForm.jsx:56 | a line of one space is dropped by the form and kept by the dialog |
| StudentDashboard.ProgressColor | src/pages/StudentDashboard.jsx:66-70 | success iff at least 80, warning iff from 50 below 80, error iff below 50 |
| StudentDashboard.ProgressColorMonotone | src/pages/StudentDashboard.jsx:66-70 | more progress never gives a worse colour |
| StudentDashboard.ShownProgress | src/pages/StudentDashboard.jsx:220-226 | a missing progress shows as 0 and a present one as itself |
| StudentDashboard.LastAccessed | src/pages/StudentDashboard.jsx:286-288 | the last access date when present and non-empty, the enrollment date otherwise |
| StudentDashboard.StatusColor | src/pages/StudentDashboard.jsx:244-248 | success iff the status is exactly `COMPLETED`, primary otherwise |
| StudentDashboard.DifficultyChip | src/pages/StudentDashboard.jsx:194-203 | success iff Beginner, warning iff Intermediate, error for any other text |
| StudentDashboard.DifficultyChipAgreesWithCatalog | src/pages/StudentDashboard.jsx:197-203 | the dashboard's chip equals the catalog's colour iff the level is one of the three known ones; otherwise it is error where the catalog says default |
| StudentDashboard.NumberCard | src/pages/StudentDashboard.jsx:112-132 | a card's text is the number's decimal text, followed by a percent sign iff asked for, and parses back to the number |
| StudentDashboard.StatCards | src/pages/StudentDashboard.jsx:112-117 | four cards in order, each captioned and reading back as its total; only the fourth, Average Progress, carries the percent sign |
| StudentDashboard.Card | src/pages/StudentDashboard.jsx:185-260 | the bar's value and colour both use the shown progress; difficulty and status chips; the link to the course |
| StudentDashboard.RecentActivity | src/pages/StudentDashboard.jsx:269-296 | absent iff there are no enrollments; otherwise the first min(5, n) in order, each with a divider iff it is not the last of all n |
| StudentDashboard.Fetched | src/pages/StudentDashboard.jsx:49-64 | both responses stored and the error cleared iff both succeed; otherwise neither is stored and the fixed message is set; loading ends |
| StudentDashboard.Render | src/pages/StudentDashboard.jsx:72-296 | spinner iff loading; alert iff error, showing the error's text; the browse prompt iff no enrollments; one card per enrollment; the activity list and the statistics |
| StudentDashboard.SettledDashboard | src/pages/StudentDashboard.jsx:49-108 | once the requests settle the dashboard shows, with an alert iff one failed; a failed first load shows the prompt and no activity |
| AdminDashboard.Route | src/pages/AdminDashboard.jsx:31-71 | exactly the four navigating cards have a route: `/admin/courses`, `/admin/enrollments`, `/admin/payments` and `/profile` |
| AdminDashboard.PanelOf | src/pages/AdminDashboard.jsx:103-144 | the grid iff neither flag is set; the add form iff its flag is set; otherwise the edit form for the stored course |
| AdminDashboard.Click | src/pages/AdminDashboard.jsx:31-71 | navigating cards leave the view unchanged; Add sets only its flag; Edit sets the course to 1 and the edit flag |
| AdminDashboard.CloseAdd | src/pages/AdminDashboard.jsx:138 | closing the add form clears only its flag |
| AdminDashboard.CloseEdit | src/pages/AdminDashboard.jsx:140-143 | closing the edit form clears only its flag and keeps the course id |
| AdminDashboard.RunStaysSound | src/pages/AdminDashboard.jsx:26-144 | from a sound view, any sequence of possible clicks and closes keeps the two flags apart and the edit form on course 1 |
| AdminDashboard.OpenCloseReturnsToGrid | src/pages/AdminDashboard.jsx:103-143 | the dashboard mounts on the grid, and opening then closing either form returns to it |
| AdminEnrollments.DisplayId | src/pages/AdminEnrollments.jsx:108-113 | the dash iff the id is missing or 0; any other id shows as text that parses back to it |
| AdminEnrollments.DashIsNotANumber | src/pages/AdminEnrollments.jsx:109 | the dash does not parse as a number |
| AdminEnrollments.StatusColor | src/pages/AdminEnrollments.jsx:123-131 | success iff the status equals `completed` up to case, warning iff `pending` up to case, default otherwise |
| AdminEnrollments.StatusColorIgnoresCase | src/pages/AdminEnrollments.jsx:125-131 | statuses that differ only in case get the same colour |
| AdminEnrollments.OnlyAdminIgnoresCase | src/pages/AdminEnrollments.jsx:126 | `Completed` is success on this page though primary on the student dashboard |
| AdminEnrollments.Loaded | src/pages/AdminEnrollments.jsx:21-35 | success stores the list and clears the error; failure sets `Failed to load enrollments` and keeps the list; loading ends |
| AdminEnrollments.Render | src/pages/AdminEnrollments.jsx:37-131 | only the spinner while loading; otherwise only the alert when there is an error; otherwise one card per record, failing iff some record has no status |
| AdminEnrollments.SettledScreen | src/pages/AdminEnrollments.jsx:21-57 | after a failed request only the alert with the fixed message; after success with statuses, one card per record |
| JsText.Split | src/pages/AdminCourses.jsx:116 | at least one piece, none holding the separator, and joining them gives the text back |
| JsText.SplitJoin | src/pages/AdminCourses.jsx:84-116 | a non-empty list of separator-free strings joins and splits back into itself |
| JsText.Trim | src/pages/EditCourseForm.jsx:56 | the trimmed text is a slice of the text with only white space before and after it, starting and ending with non-space, and empty iff the text is all white space |
| JsText.Filter | src/pages/AdminCourses.jsx:116-117 | no longer than the list, and every kept entry is accepted and taken from the list |
| JsText.FilterCounts | src/pages/AdminCourses.jsx:116-117 | every accepted entry is kept exactly as often as it occurs, and no other entry is kept |
| JsText.FilterAppend | src/pages/AdminCourses.jsx:116-117 | filtering keeps order: it distributes over concatenation |
| JsText.FilterKeepsAll | src/pages/EditCourseForm.jsx:56-57 | a list whose entries are all accepted is its own filtering |
| JsText.FilterNarrows | src/pages/EditCourseForm.jsx:56-57 | filtering by a weaker test first and then a stronger one is filtering by the stronger one |
| JsText.ToLower | src/pages/AdminEnrollments.jsx:126-128 | same length, each character lower-cased |
| JsText.ToLowerEqualIffEqualIgnoringCase | src/pages/AdminEnrollments.jsx:126-128 | two strings lower-case to the same text iff they are equal up to case |
| JsNumber.ParseIntRoundTrip | src/pages/AdminCourses.jsx:81-114 | `parseInt` of an integer's decimal text gives back the integer |
| JsNumber.ParseIntReadsLeadingInteger | src/pages/EditCourseForm.jsx:54 | `parseInt` reads an integer's decimal text followed by anything that cannot continue it |
| JsNumber.ParseIntWithoutDigits | src/pages/AdminCourses.jsx:114 | a text without decimal digits parses as `NaN` |

## Left out

- JSX layout, styling, icons and the `Home.jsx` and `Payments.jsx` pages. They hold presentation, or third-party checkout calls, and no rule of the pages' logic.
- The HTTP client, routing, authentication, `window.confirm` and React's effect scheduling. Requests are values and responses are inputs; confirmation is a boolean.
- `fetchCategories` (`Courses.jsx:54-61`). It stores the response or logs an error, and nothing else reads the result in the modelled logic.
- Date formatting (`toLocaleDateString`, `toLocaleString`). Its output depends on the locale; dates stay as opaque text.
- `AddCourseForm` is not part of this model.
- Catalog.Query: `URLSearchParams` percent-encoding is not modelled; the parameters are the key/value pairs before encoding.
- JsNumber.ParseInt: models integers only. Digit runs beyond 2^53 are not rounded, and exponent notation for numbers of 1e21 and above is not produced.
- AdminCourses.ToPayload: `parseFloat` of the price is kept as the opaque value `ParseFloatOf(text)`, because the model has no floating point. Prices and all other numbers are integers.
- JsText.ToLower: maps only ASCII letters. In Unicode's case tables, the only non-ASCII characters that lower-case to an ASCII letter (the Kelvin sign to `k`) never occur in `completed` or `pending`. So the status comparison is unaffected.
- StudentDashboard.ShownProgress: progress is an integer, so a falsy `NaN` progress is not modelled.
- JsValue.Value: arrays hold strings only, since lists of text are the only arrays the pages send or read.
- AdminEnrollments.Render: the amount, payment id and creation date are shown as they arrive, so they are not modelled.
- EditCourseForm.Save: the browser's other checks on the two `type="number"` inputs are not modelled. A text that is not a valid number shows as empty there, and the browser then also blocks the submit; the model blocks only absent, `null` and empty values.
- CourseModel.Course: `duration` and `price` are always integers. In the program a course whose duration or price is `null` makes `toString()` throw when the admin dialog opens (`AdminCourses.jsx:81-82`), and the dialog stays closed. `setEditingCourse(course)` (`AdminCourses.jsx:74`) has already run by then, so the page is left with a closed dialog that edits that course. The model has no such course.
- StudentDashboard.Fetched and AdminEnrollments.Loaded: the GET requests the two loads start are not modelled as values; only their settled outcomes are inputs.
- AdminCourses.RunStaysConsistent: holds only for courses whose duration and price are numbers. Opening the dialog on a course whose duration or price is `null` leaves a closed dialog that edits that course, as the `CourseModel.Course` line says.
- EditCourseForm.Load: a `null` response body, which throws when `response.data.curriculum` is read (`EditCourseForm.jsx:35`) and leaves the form unchanged, is not a separate input. `Outcome.Failed` covers it.
