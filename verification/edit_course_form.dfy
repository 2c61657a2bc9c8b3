/**
 * The stand-alone edit form: a JavaScript object holding the course's fields, filled by a
 * load, edited input by input, and sent back as an update whose list fields drop blank lines.
 */
module EditCourseForm {
  import opened Options
  import opened JsText
  import opened JsNumber
  import opened JsValue
  import opened CourseModel
  import opened Http
  import AdminCourses

  /** The form's state: a plain object, since the load spreads the whole response into it. */
  type Draft = Object

  /** The ten keys the form's inputs are named after. */
  const FormKeys: set<string> := {"title", "description", "instructor", "category", "difficulty",
                                  "duration", "price", "thumbnail", "curriculum", "requirements"}

  /** The form before any load: every field the empty string except difficulty `Beginner`. */
  const DefaultDraft: Draft := map[
    "title" := Str(""), "description" := Str(""), "instructor" := Str(""), "category" := Str(""),
    "difficulty" := Str("Beginner"), "duration" := Str(""), "price" := Str(""), "thumbnail" := Str(""),
    "curriculum" := Str(""), "requirements" := Str("")]

  /**
   * `field?.join('\n') || ''` on a response field: an absent or `null` field gives the empty
   * text, an array its entries joined by newlines. Anything else has no `join` method, and
   * calling it throws, which is `None` here.
   */
  function JoinedField(o: Object, key: string): (r: Option<string>)
    ensures r.None? <==> Lookup(o, key).Some? && !Lookup(o, key).value.StrList?
    ensures Lookup(o, key).None? ==> r == Some("")
    ensures Lookup(o, key).Some? && Lookup(o, key).value.StrList? ==> r == Some(Join(Lookup(o, key).value.items, '\n'))
  {
    match Lookup(o, key)
    case None => Some("")
    case Some(StrList(items)) => Some(Join(items, '\n'))
    case Some(_) => None
  }

  /**
   * `fetchCourseData`. A successful load replaces the form with the response object as it is,
   * except that curriculum and requirements become newline-joined text; every other key,
   * including keys the form has no input for, is copied unchanged. A failed request, or a list
   * field that is not an array, leaves the form as it was.
   */
  function Load(d: Draft, outcome: Outcome<Object>): (r: Draft)
    ensures outcome.Failed? ==> r == d
    ensures outcome.Succeeded? && JoinedField(outcome.data, "curriculum").Some? && JoinedField(outcome.data, "requirements").Some? ==>
      && r.Keys == outcome.data.Keys + {"curriculum", "requirements"}
      && (forall k :: k in outcome.data && k != "curriculum" && k != "requirements" ==> r[k] == outcome.data[k])
      && r["curriculum"] == Str(JoinedField(outcome.data, "curriculum").value)
      && r["requirements"] == Str(JoinedField(outcome.data, "requirements").value)
    ensures outcome.Succeeded? && (JoinedField(outcome.data, "curriculum").None? || JoinedField(outcome.data, "requirements").None?) ==> r == d
  {
    match outcome
    case Failed => d
    case Succeeded(o) =>
      match (JoinedField(o, "curriculum"), JoinedField(o, "requirements"))
      case (Some(curriculum), Some(requirements)) =>
        o["curriculum" := Str(curriculum)]["requirements" := Str(requirements)]
      case _ => d
  }

  /** `handleInputChange`: the named field takes the typed text and no other key moves. */
  function InputChange(d: Draft, name: string, text: string): (r: Draft)
    ensures r.Keys == d.Keys + {name}
    ensures r[name] == Str(text)
    ensures forall k :: k in d && k != name ==> r[k] == d[k]
  {
    d[name := Str(text)]
  }

  /** `item.trim()` is truthy: the line has a character other than white space. */
  predicate NotBlank(x: string) {
    Trim(x) != ""
  }

  /**
   * A list field of the update: the lines of the text whose trimmed form is non-empty. Kept
   * lines are sent as typed, untrimmed, each as often as it occurs.
   */
  function NonBlankLines(text: string): (r: seq<string>)
    ensures forall i :: 0 <= i < |r| ==> NotBlank(r[i]) && '\n' !in r[i]
  {
    var lines := Split(text, '\n');
    var r := Filter(lines, NotBlank);
    r
  }

  /** The body of the update: the form object with four keys replaced. */
  datatype Update = Update(rest: Object, duration: IntParse, price: FloatParse, curriculum: seq<string>, requirements: seq<string>)

  const ConvertedKeys: set<string> := {"duration", "price", "curriculum", "requirements"}

  /**
   * The object `handleSubmit` sends: every key of the form as it is, except the duration
   * through `parseInt` and the price through `parseFloat` of their `String` forms, and the two
   * list texts split into non-blank lines. When a list field is not a string, `split` throws
   * and there is no update (`None`).
   */
  function ToUpdate(d: Draft): (r: Option<Update>)
    ensures r.Some? <==> "curriculum" in d && d["curriculum"].Str? && "requirements" in d && d["requirements"].Str?
    ensures r.Some? ==> r.value.rest == d - ConvertedKeys
    ensures r.Some? ==> r.value.duration == ParseInt(FieldToString(d, "duration"))
    ensures r.Some? ==> r.value.price == ParseFloatOf(FieldToString(d, "price"))
    ensures r.Some? ==> r.value.curriculum == NonBlankLines(d["curriculum"].s)
    ensures r.Some? ==> r.value.requirements == NonBlankLines(d["requirements"].s)
  {
    if "curriculum" in d && d["curriculum"].Str? && "requirements" in d && d["requirements"].Str? then
      Some(Update(d - ConvertedKeys, ParseInt(FieldToString(d, "duration")), ParseFloatOf(FieldToString(d, "price")),
                  NonBlankLines(d["curriculum"].s), NonBlankLines(d["requirements"].s)))
    else None
  }

  /** The path of the edited course: `String(courseId)` after the collection path. */
  function CoursePath(courseId: Value): string {
    "/api/courses/" + ToString(courseId)
  }

  /** The update request and whether the form closed. */
  datatype Submission = Submission(requests: seq<Request<Update>>, closed: bool)

  /**
   * `handleSubmit`: the update always goes to `PUT /api/courses/{courseId}`, for creation as
   * much as for edits; `onClose` is called only when it succeeds. When the body cannot be
   * built nothing is sent and the form stays.
   */
  function Submit(d: Draft, courseId: Value, succeeded: bool): (r: Submission)
    ensures |r.requests| <= 1
    ensures |r.requests| == 1 <==> ToUpdate(d).Some?
    ensures |r.requests| == 1 ==> r.requests[0] == Put(CoursePath(courseId), ToUpdate(d).value)
    ensures r.closed <==> |r.requests| == 1 && succeeded
  {
    match ToUpdate(d)
    case Some(update) => Submission([Put(CoursePath(courseId), update)], succeeded)
    case None => Submission([], false)
  }

  /** The six inputs marked `required`: every text input but the thumbnail and the two lists. */
  const RequiredKeys: set<string> := {"title", "description", "instructor", "category", "duration", "price"}

  /**
   * An input shows no text when its key is absent, `null` or the empty string; a number or
   * any other value shows its `String` form.
   */
  predicate ShowsText(d: Draft, key: string) {
    key in d && d[key] != Null && d[key] != Str("")
  }

  /**
   * The save button. It submits the `<form>`, and the browser fires `onSubmit` only when every
   * required input shows some text; otherwise nothing is sent and the form stays open. Once
   * `handleSubmit` runs it behaves as `Submit` says.
   */
  function Save(d: Draft, courseId: Value, succeeded: bool): (r: Submission)
    ensures |r.requests| <= 1
    ensures |r.requests| == 1 <==> (forall k :: k in RequiredKeys ==> ShowsText(d, k)) && ToUpdate(d).Some?
    ensures |r.requests| == 1 ==> r.requests[0] == Put(CoursePath(courseId), ToUpdate(d).value)
    ensures r.closed <==> |r.requests| == 1 && succeeded
  {
    if forall k :: k in RequiredKeys ==> ShowsText(d, k) then Submit(d, courseId, succeeded)
    else Submission([], false)
  }

  /**
   * The form's inputs are named after the keys of its defaults, and the required ones among
   * them. Saving the defaults sends nothing: the title is still empty.
   */
  lemma DefaultsAreBlocked(courseId: Value, succeeded: bool)
    ensures DefaultDraft.Keys == FormKeys && RequiredKeys <= FormKeys
    ensures Save(DefaultDraft, courseId, succeeded) == Submission([], false)
  {
    assert !ShowsText(DefaultDraft, "title");
  }

  /**
   * Saving a loaded course whose four required texts are non-empty passes the browser's check:
   * its duration and price are numbers, which always show, so the update is sent.
   */
  lemma LoadedCourseSaves(c: Course, courseId: Value, succeeded: bool)
    requires c.title != "" && c.description != "" && c.instructor != "" && c.category != ""
    ensures |Save(Load(DefaultDraft, Succeeded(ToObject(c))), courseId, succeeded).requests| == 1
  {
    var o := ToObject(c);
    var curriculum := Join(c.curriculum.GetOr([]), '\n');
    var requirements := Join(c.requirements.GetOr([]), '\n');
    LoadCourse(c);
    var d := o["curriculum" := Str(curriculum)]["requirements" := Str(requirements)];
    assert ListsAreText(d);
    ListsKeepRequired(o, Str(curriculum), Str(requirements));
    RequiredShown(d);
  }

  /** Replacing the two list fields leaves the six required inputs as they were. */
  lemma ListsKeepRequired(o: Object, curriculum: Value, requirements: Value)
    requires ShowsText(o, "title") && ShowsText(o, "description") && ShowsText(o, "instructor")
    requires ShowsText(o, "category") && ShowsText(o, "duration") && ShowsText(o, "price")
    ensures var d := o["curriculum" := curriculum]["requirements" := requirements];
      ShowsText(d, "title") && ShowsText(d, "description") && ShowsText(d, "instructor")
      && ShowsText(d, "category") && ShowsText(d, "duration") && ShowsText(d, "price")
  {
  }

  /** The six required inputs show text when each of them does. */
  lemma RequiredShown(d: Draft)
    requires ShowsText(d, "title") && ShowsText(d, "description") && ShowsText(d, "instructor")
    requires ShowsText(d, "category") && ShowsText(d, "duration") && ShowsText(d, "price")
    ensures forall k :: k in RequiredKeys ==> ShowsText(d, k)
  {
  }

  /**
   * The round trip of the form's lists: a list without line breaks or blank entries is joined
   * into the text and split back into exactly itself; an absent list comes back empty.
   */
  lemma {:induction false} ListRoundTrip(xs: seq<string>)
    requires Clean(xs)
    ensures NonBlankLines(Join(xs, '\n')) == xs
  {
    if xs == [] {
      assert Split("", '\n') == [""];
      assert Trim("") == "";
      assert Filter([""], NotBlank) == [] by {
        assert [""][1..] == [];
      }
    } else {
      SplitJoin(xs, '\n');
      FilterKeepsAll(xs, NotBlank);
    }
  }

  /** States of the form that can be reached: loads and edits, starting from the defaults. */
  datatype Event = Loaded(outcome: Outcome<Object>) | Typed(name: string, text: string)

  function Step(d: Draft, e: Event): Draft {
    match e
    case Loaded(outcome) => Load(d, outcome)
    case Typed(name, text) => InputChange(d, name, text)
  }

  function Run(d: Draft, events: seq<Event>): Draft
    decreases |events|
  {
    if events == [] then d else Run(Step(d, events[0]), events[1..])
  }

  /** The two list fields are strings, so the update can be built. */
  predicate ListsAreText(d: Draft) {
    "curriculum" in d && d["curriculum"].Str? && "requirements" in d && d["requirements"].Str?
  }

  /**
   * Whatever loads and edits happen, the list fields stay strings, so every run of
   * `handleSubmit` builds its update and sends one request, and the save button sends
   * exactly when the required inputs all show text.
   */
  lemma {:induction false} SubmitAlwaysSends(d: Draft, events: seq<Event>, courseId: Value, succeeded: bool)
    requires ListsAreText(d)
    ensures ListsAreText(Run(d, events))
    ensures |Submit(Run(d, events), courseId, succeeded).requests| == 1
    ensures |Save(Run(d, events), courseId, succeeded).requests| == 1 <==> forall k :: k in RequiredKeys ==> ShowsText(Run(d, events), k)
    decreases |events|
  {
    if events != [] {
      SubmitAlwaysSends(Step(d, events[0]), events[1..], courseId, succeeded);
    }
  }

  /** A list the form carries through unchanged: no entry holds a line break or is blank. */
  predicate Clean(xs: seq<string>) {
    forall i :: 0 <= i < |xs| ==> '\n' !in xs[i] && NotBlank(xs[i])
  }

  /** Loading a course's object fills the form with it, its lists joined by newlines. */
  lemma LoadCourse(c: Course)
    ensures Load(DefaultDraft, Succeeded(ToObject(c)))
      == ToObject(c)["curriculum" := Str(Join(c.curriculum.GetOr([]), '\n'))]["requirements" := Str(Join(c.requirements.GetOr([]), '\n'))]
  {
    var o := ToObject(c);
    assert JoinedField(o, "curriculum") == Some(Join(c.curriculum.GetOr([]), '\n'));
    assert JoinedField(o, "requirements") == Some(Join(c.requirements.GetOr([]), '\n'));
  }

  /** Replacing the two list fields does not touch the rest of the object. */
  lemma ListsOutsideRest(o: Object, curriculum: Value, requirements: Value)
    ensures o["curriculum" := curriculum]["requirements" := requirements] - ConvertedKeys == o - ConvertedKeys
  {
  }

  /**
   * A loaded form is sent with its other keys as they are, its numbers parsed and its two
   * list texts split into non-blank lines.
   */
  lemma UpdateOfTexts(o: Object, curriculum: string, requirements: string)
    ensures ToUpdate(o["curriculum" := Str(curriculum)]["requirements" := Str(requirements)])
      == Some(Update(o - ConvertedKeys, ParseInt(FieldToString(o, "duration")), ParseFloatOf(FieldToString(o, "price")),
                     NonBlankLines(curriculum), NonBlankLines(requirements)))
  {
    var d := o["curriculum" := Str(curriculum)]["requirements" := Str(requirements)];
    assert d["curriculum"] == Str(curriculum) && d["requirements"] == Str(requirements);
    ListsOutsideRest(o, Str(curriculum), Str(requirements));
    assert FieldToString(d, "duration") == FieldToString(o, "duration");
    assert FieldToString(d, "price") == FieldToString(o, "price");
  }

  /** Any loaded form whose lists are clean sends them back as they were. */
  lemma UpdateOfLoaded(o: Object, curriculum: seq<string>, requirements: seq<string>)
    requires Clean(curriculum) && Clean(requirements)
    ensures ToUpdate(o["curriculum" := Str(Join(curriculum, '\n'))]["requirements" := Str(Join(requirements, '\n'))])
      == Some(Update(o - ConvertedKeys, ParseInt(FieldToString(o, "duration")), ParseFloatOf(FieldToString(o, "price")),
                     curriculum, requirements))
  {
    UpdateOfTexts(o, Join(curriculum, '\n'), Join(requirements, '\n'));
    ListRoundTrip(curriculum);
    ListRoundTrip(requirements);
  }

  /**
   * Loading a course and submitting the form untouched sends its lists back exactly when they
   * hold no line breaks or blank entries, its duration unchanged, its price through the
   * `String` form, and every other field of the course, `id` and `active` included, as it was.
   */
  lemma LoadSubmitRoundTrip(c: Course)
    requires c.curriculum.Some? ==> Clean(c.curriculum.value)
    requires c.requirements.Some? ==> Clean(c.requirements.value)
    ensures ToUpdate(Load(DefaultDraft, Succeeded(ToObject(c))))
      == Some(Update(ToObject(c) - ConvertedKeys, Int(c.duration), ParseFloatOf(IntToDecimal(c.price)),
                     c.curriculum.GetOr([]), c.requirements.GetOr([])))
  {
    var o := ToObject(c);
    var curriculum := c.curriculum.GetOr([]);
    var requirements := c.requirements.GetOr([]);
    LoadCourse(c);
    UpdateOfLoaded(o, curriculum, requirements);
    ParseIntRoundTrip(c.duration);
    assert FieldToString(o, "duration") == IntToDecimal(c.duration);
    assert FieldToString(o, "price") == IntToDecimal(c.price);
  }

  /** A line that is not blank is not empty. */
  lemma NotBlankIsNonEmpty()
    ensures forall x :: NotBlank(x) ==> AdminCourses.NonEmpty(x)
  {
    assert Trim("") == "";
  }

  /**
   * The form drops every line that is blank after trimming, while the admin dialog drops only
   * empty lines: the form's list is always the dialog's list less its white-space lines.
   */
  lemma DialogKeepsWhiteSpaceLines(text: string)
    ensures NonBlankLines(text) == Filter(AdminCourses.Lines(text), NotBlank)
  {
    NotBlankIsNonEmpty();
    FilterNarrows(Split(text, '\n'), AdminCourses.NonEmpty, NotBlank);
  }

  /** A line of one space separates the two: the dialog sends it, the form does not. */
  lemma SpaceLineSeparatesForms()
    ensures NonBlankLines(" ") == [] && AdminCourses.Lines(" ") == [" "]
  {
    assert Join([" "], '\n') == " ";
    SplitJoin([" "], '\n');
    FilterKeepsAll([" "], AdminCourses.NonEmpty);
    assert !NotBlank(" ") by {
      assert Blank(" ");
    }
    assert Filter([" "], NotBlank) == [] by {
      assert [" "][1..] == [];
    }
  }
}
