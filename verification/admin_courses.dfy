/**
 * The admin course table: its fetch state, the add/edit dialog with its string-valued draft,
 * the write payload built from the draft, and the create, update and delete requests.
 */
module AdminCourses {
  import opened Options
  import opened JsText
  import opened JsNumber
  import opened CourseModel
  import opened Http

  /** The dialog's form: every field is text, lists are one entry per line. */
  datatype Draft = Draft(
    title: string,
    description: string,
    instructor: string,
    category: string,
    difficulty: string,
    duration: string,
    price: string,
    thumbnail: string,
    curriculum: string,
    requirements: string)

  /** The form of a new course: everything empty, difficulty `Beginner`. */
  const EmptyDraft: Draft := Draft("", "", "", "", "Beginner", "", "", "", "", "")

  /** The text of an optional list field: joined with newlines, or empty when absent. */
  function ListText(xs: Option<seq<string>>): string {
    match xs
    case Some(items) => Join(items, '\n')
    case None => ""
  }

  /**
   * The form of an existing course. The text fields are copied; the duration and price texts
   * read back as the course's numbers; a missing thumbnail is empty; and each list field is a
   * text that splits back into the course's list when that list is non-empty and newline-free.
   */
  function ToDraft(c: Course): (d: Draft)
    ensures d.title == c.title && d.description == c.description && d.instructor == c.instructor
    ensures d.category == c.category && d.difficulty == c.difficulty
    ensures ParseInt(d.duration) == Int(c.duration) && ParseInt(d.price) == Int(c.price)
    ensures d.thumbnail == c.thumbnail.GetOr("")
    ensures c.curriculum.None? ==> d.curriculum == ""
    ensures c.curriculum.Some? && |c.curriculum.value| >= 1 && NoNewlines(c.curriculum.value) ==>
      Split(d.curriculum, '\n') == c.curriculum.value
    ensures c.requirements.Some? && |c.requirements.value| >= 1 && NoNewlines(c.requirements.value) ==>
      Split(d.requirements, '\n') == c.requirements.value
  {
    ParseIntRoundTrip(c.duration);
    ParseIntRoundTrip(c.price);
    ListTextSplits(c.curriculum);
    ListTextSplits(c.requirements);
    Draft(c.title, c.description, c.instructor, c.category, c.difficulty,
          IntToDecimal(c.duration), IntToDecimal(c.price), c.thumbnail.GetOr(""),
          ListText(c.curriculum), ListText(c.requirements))
  }

  lemma ListTextSplits(xs: Option<seq<string>>)
    ensures xs.Some? && |xs.value| >= 1 && NoNewlines(xs.value) ==> Split(ListText(xs), '\n') == xs.value
  {
    if xs.Some? && |xs.value| >= 1 && NoNewlines(xs.value) {
      SplitJoin(xs.value, '\n');
    }
  }

  /** No entry contains a line break. */
  predicate NoNewlines(xs: seq<string>) {
    forall i :: 0 <= i < |xs| ==> '\n' !in xs[i]
  }

  /** `filter(Boolean)` on strings: only the empty string is dropped. */
  predicate NonEmpty(x: string) {
    x != ""
  }

  /**
   * A list field of the payload: the lines of the text, without the empty ones, each as often
   * as it occurs. Kept lines are not trimmed, so a line of spaces stays.
   */
  function Lines(text: string): (r: seq<string>)
    ensures forall i :: 0 <= i < |r| ==> r[i] != "" && '\n' !in r[i]
  {
    var lines := Split(text, '\n');
    var r := Filter(lines, NonEmpty);
    r
  }

  /** The body of the create and update requests. */
  datatype Payload = Payload(
    title: string,
    description: string,
    instructor: string,
    category: string,
    difficulty: string,
    duration: IntParse,
    price: FloatParse,
    thumbnail: string,
    curriculum: seq<string>,
    requirements: seq<string>)

  /**
   * The payload of `handleSubmit`: the six text fields as typed, the duration through
   * `parseInt` and the price through `parseFloat`, whatever the text holds (nothing is
   * rejected), and each list as its lines without the empty ones. Kept lines are not trimmed,
   * so a line of spaces stays, and order and repeats are kept.
   */
  function ToPayload(d: Draft): (p: Payload)
    ensures p.title == d.title && p.description == d.description && p.instructor == d.instructor
    ensures p.category == d.category && p.difficulty == d.difficulty && p.thumbnail == d.thumbnail
    ensures p.duration == ParseInt(d.duration) && p.price == ParseFloatOf(d.price)
    ensures p.curriculum == Lines(d.curriculum) && p.requirements == Lines(d.requirements)
    ensures forall i :: 0 <= i < |p.curriculum| ==> p.curriculum[i] != "" && '\n' !in p.curriculum[i]
    ensures forall i :: 0 <= i < |p.requirements| ==> p.requirements[i] != "" && '\n' !in p.requirements[i]
  {
    Payload(d.title, d.description, d.instructor, d.category, d.difficulty,
            ParseInt(d.duration), ParseFloatOf(d.price), d.thumbnail, Lines(d.curriculum), Lines(d.requirements))
  }

  /**
   * The list round trip of the dialog: a newline-free list, absent or not, comes back from
   * draft and payload with its empty entries removed and nothing else changed.
   */
  lemma {:induction false} ListRoundTrip(xs: Option<seq<string>>)
    requires xs.Some? ==> NoNewlines(xs.value)
    ensures Lines(ListText(xs)) == Filter(xs.GetOr([]), NonEmpty)
  {
    if xs.Some? && |xs.value| >= 1 {
      SplitJoin(xs.value, '\n');
    } else {
      assert ListText(xs) == "";
      assert Split("", '\n') == [""];
      assert Filter([""], NonEmpty) == [] by {
        assert [""][1..] == [];
      }
    }
  }

  /**
   * Submitting an existing course's form untouched sends its text fields, its duration, its
   * price text, its thumbnail (empty when missing) and its lists less their empty entries.
   */
  lemma DraftPayloadRoundTrip(c: Course)
    requires c.curriculum.Some? ==> NoNewlines(c.curriculum.value)
    requires c.requirements.Some? ==> NoNewlines(c.requirements.value)
    ensures ToPayload(ToDraft(c)) == Payload(c.title, c.description, c.instructor, c.category, c.difficulty,
      Int(c.duration), ParseFloatOf(IntToDecimal(c.price)), c.thumbnail.GetOr(""),
      Filter(c.curriculum.GetOr([]), NonEmpty), Filter(c.requirements.GetOr([]), NonEmpty))
  {
    ListRoundTrip(c.curriculum);
    ListRoundTrip(c.requirements);
  }

  /** The ten form fields the dialog's inputs edit. */
  datatype DraftField = Title | Description | Instructor | Category | Difficulty | Duration | Price | Thumbnail | Curriculum | Requirements

  function FieldText(d: Draft, field: DraftField): string {
    match field
    case Title => d.title
    case Description => d.description
    case Instructor => d.instructor
    case Category => d.category
    case Difficulty => d.difficulty
    case Duration => d.duration
    case Price => d.price
    case Thumbnail => d.thumbnail
    case Curriculum => d.curriculum
    case Requirements => d.requirements
  }

  /** An input's `onChange`: its own field takes the typed text and no other field moves. */
  function SetField(d: Draft, field: DraftField, text: string): (r: Draft)
    ensures FieldText(r, field) == text
    ensures forall other :: other != field ==> FieldText(r, other) == FieldText(d, other)
  {
    match field
    case Title => d.(title := text)
    case Description => d.(description := text)
    case Instructor => d.(instructor := text)
    case Category => d.(category := text)
    case Difficulty => d.(difficulty := text)
    case Duration => d.(duration := text)
    case Price => d.(price := text)
    case Thumbnail => d.(thumbnail := text)
    case Curriculum => d.(curriculum := text)
    case Requirements => d.(requirements := text)
  }

  /** The page's state: the table, its fetch flags, and the dialog. */
  datatype AdminState = AdminState(
    courses: seq<Course>,
    loading: bool,
    error: string,
    showDialog: bool,
    editing: Option<Course>,
    draft: Draft)

  const LoadErrorMessage: string := "Failed to load courses."

  const CoursesPath: string := "/api/admin/courses"

  /** The state at mount: no courses, loading, dialog closed, empty form. */
  const Mounted: AdminState := AdminState([], true, "", false, None, EmptyDraft)

  /** The path of one course: the collection path, a slash, and the id as `String` prints it. */
  function CoursePath(id: int): (p: string)
    ensures |p| > |CoursesPath| + 1 && p[..|CoursesPath| + 1] == CoursesPath + "/"
    ensures ParseInt(p[|CoursesPath| + 1..]) == Int(id)
  {
    ParseIntRoundTrip(id);
    var p := CoursesPath + "/" + IntToDecimal(id);
    assert p[|CoursesPath| + 1..] == IntToDecimal(id);
    p
  }

  /**
   * The end of `fetchCourses`: success replaces the table and clears the error, failure sets
   * the fixed message and keeps the table; `loading` is off either way and the dialog is
   * untouched. There is no start step: the page never raises `loading` again after mount.
   */
  function Loaded(s: AdminState, outcome: Outcome<seq<Course>>): (r: AdminState)
    ensures !r.loading
    ensures r.showDialog == s.showDialog && r.editing == s.editing && r.draft == s.draft
    ensures outcome.Succeeded? ==> r.courses == outcome.data && r.error == ""
    ensures outcome.Failed? ==> r.courses == s.courses && r.error == LoadErrorMessage
  {
    match outcome
    case Succeeded(courses) => s.(courses := courses, error := "", loading := false)
    case Failed => s.(error := LoadErrorMessage, loading := false)
  }

  /**
   * `handleOpenDialog`: with a course, edit it from its draft; without one, create from the
   * empty form. The dialog opens either way.
   */
  function OpenDialog(s: AdminState, course: Option<Course>): (r: AdminState)
    ensures r.showDialog && r.editing == course
    ensures course.Some? ==> r.draft == ToDraft(course.value)
    ensures course.None? ==> r.draft == EmptyDraft
    ensures r.courses == s.courses && r.loading == s.loading && r.error == s.error
  {
    match course
    case Some(c) => s.(editing := Some(c), draft := ToDraft(c), showDialog := true)
    case None => s.(editing := None, draft := EmptyDraft, showDialog := true)
  }

  /** `handleCloseDialog`: the dialog closes and forgets the course; the form text is left as it was. */
  function CloseDialog(s: AdminState): (r: AdminState)
    ensures !r.showDialog && r.editing.None?
    ensures r.draft == s.draft && r.courses == s.courses && r.loading == s.loading && r.error == s.error
  {
    s.(showDialog := false, editing := None)
  }

  /** An edit of one form field. */
  function EditField(s: AdminState, field: DraftField, text: string): (r: AdminState)
    ensures FieldText(r.draft, field) == text
    ensures r.(draft := s.draft) == s
  {
    s.(draft := SetField(s.draft, field, text))
  }

  /** A state with the requests an action sent, in order. */
  datatype Effect = Effect(state: AdminState, requests: seq<Request<Payload>>)

  /**
   * `handleSubmit`: the draft's payload goes out as a PUT to the edited course's path, or as a
   * POST to the collection when creating. On success the dialog closes and the table is
   * fetched again; on failure nothing changes and nothing else is sent.
   */
  function Submit(s: AdminState, writeSucceeded: bool): (r: Effect)
    ensures |r.requests| >= 1
    ensures s.editing.Some? ==> r.requests[0] == Put(CoursePath(s.editing.value.id), ToPayload(s.draft))
    ensures s.editing.None? ==> r.requests[0] == Post(CoursesPath, ToPayload(s.draft))
    ensures writeSucceeded ==> r.state == CloseDialog(s) && r.requests[1..] == [Get(CoursesPath)]
    ensures !writeSucceeded ==> r.state == s && |r.requests| == 1
  {
    var payload := ToPayload(s.draft);
    var write := match s.editing
      case Some(c) => Put(CoursePath(c.id), payload)
      case None => Post(CoursesPath, payload);
    if writeSucceeded then Effect(CloseDialog(s), [write, Get(CoursesPath)])
    else Effect(s, [write])
  }

  /**
   * `handleDelete`: nothing is sent unless the user confirms; a confirmed delete goes to the
   * course's path and, only if it succeeds, the table is fetched again. The state itself is
   * not touched: a failed delete shows no error.
   */
  function DeleteCourse(s: AdminState, id: int, confirmed: bool, deleteSucceeded: bool): (r: Effect)
    ensures r.state == s
    ensures !confirmed ==> r.requests == []
    ensures confirmed ==> |r.requests| >= 1 && r.requests[0] == Delete(CoursePath(id))
    ensures confirmed && deleteSucceeded ==> r.requests[1..] == [Get(CoursesPath)]
    ensures confirmed && !deleteSucceeded ==> |r.requests| == 1
  {
    if !confirmed then Effect(s, [])
    else if deleteSucceeded then Effect(s, [Delete(CoursePath(id)), Get(CoursesPath)])
    else Effect(s, [Delete(CoursePath(id))])
  }

  /** A user action or a response arriving. */
  datatype Event =
    | CoursesLoaded(outcome: Outcome<seq<Course>>)
    | Opened(course: Option<Course>)
    | Closed
    | Edited(field: DraftField, text: string)
    | Submitted(writeSucceeded: bool)
    | DeleteClicked(id: int, confirmed: bool, deleteSucceeded: bool)

  function Step(s: AdminState, e: Event): AdminState {
    match e
    case CoursesLoaded(outcome) => Loaded(s, outcome)
    case Opened(course) => OpenDialog(s, course)
    case Closed => CloseDialog(s)
    case Edited(field, text) => EditField(s, field, text)
    case Submitted(ok) => Submit(s, ok).state
    case DeleteClicked(id, confirmed, ok) => DeleteCourse(s, id, confirmed, ok).state
  }

  function Run(s: AdminState, events: seq<Event>): AdminState
    decreases |events|
  {
    if events == [] then s else Run(Step(s, events[0]), events[1..])
  }

  /**
   * What holds in every state the page can reach: a closed dialog is never editing a course,
   * and `loading` is on only until the first response.
   */
  predicate Consistent(s: AdminState, answered: bool) {
    (!s.showDialog ==> s.editing.None?) && (answered ==> !s.loading)
  }

  /** A sequence of events contains a response to a fetch. */
  predicate HasResponse(events: seq<Event>) {
    exists i :: 0 <= i < |events| && events[i].CoursesLoaded?
  }

  /**
   * From mount, every sequence of actions and responses keeps the dialog consistent, and once
   * some fetch has answered `loading` stays off.
   */
  lemma {:induction false} RunStaysConsistent(s: AdminState, answered: bool, events: seq<Event>)
    requires Consistent(s, answered)
    ensures Consistent(Run(s, events), answered || HasResponse(events))
    decreases |events|
  {
    if events != [] {
      var e := events[0];
      var next := Step(s, e);
      assert Consistent(next, answered || e.CoursesLoaded?);
      RunStaysConsistent(next, answered || e.CoursesLoaded?, events[1..]);
      assert HasResponse(events) <==> e.CoursesLoaded? || HasResponse(events[1..]) by {
        if HasResponse(events[1..]) {
          var i :| 0 <= i < |events[1..]| && events[1..][i].CoursesLoaded?;
          assert events[i + 1].CoursesLoaded?;
        }
        if HasResponse(events) && !e.CoursesLoaded? {
          var i :| 0 <= i < |events| && events[i].CoursesLoaded?;
          assert events[1..][i - 1].CoursesLoaded?;
        }
      }
    }
  }
}
