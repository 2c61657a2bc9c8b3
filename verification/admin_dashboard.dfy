/**
 * The admin dashboard: a grid of six feature cards, and two flags that replace the grid by
 * the add form or the edit form.
 */
module AdminDashboard {
  import opened Options

  /** The six feature cards, in the order the grid shows them. */
  datatype Feature = ManageCourses | ViewEnrollments | Payments | AddCourse | EditCourse | AdminProfile

  /** The route a card navigates to, for the four cards that leave the dashboard. */
  function Route(f: Feature): (r: Option<string>)
    ensures r.None? <==> f == AddCourse || f == EditCourse
    ensures f == ManageCourses ==> r == Some("/admin/courses")
    ensures f == ViewEnrollments ==> r == Some("/admin/enrollments")
    ensures f == Payments ==> r == Some("/admin/payments")
    ensures f == AdminProfile ==> r == Some("/profile")
  {
    match f
    case ManageCourses => Some("/admin/courses")
    case ViewEnrollments => Some("/admin/enrollments")
    case Payments => Some("/admin/payments")
    case AdminProfile => Some("/profile")
    case _ => None
  }

  /** The two panel flags and the id of the course the edit form is for. */
  datatype ViewState = ViewState(showAddCourse: bool, showEditCourse: bool, courseId: Option<int>)

  /** The dashboard as it mounts: neither form, no course. */
  const Mounted := ViewState(false, false, None)

  /** The content below the header. */
  datatype Panel = FeatureGrid | AddForm | EditForm(courseId: Option<int>)

  /**
   * The precedence of the content: the grid when neither flag is set, otherwise the add form
   * when its flag is set, whatever the other flag says, otherwise the edit form.
   */
  function PanelOf(s: ViewState): (p: Panel)
    ensures p == FeatureGrid <==> !s.showAddCourse && !s.showEditCourse
    ensures p == AddForm <==> s.showAddCourse
    ensures p.EditForm? <==> !s.showAddCourse && s.showEditCourse
    ensures p.EditForm? ==> p.courseId == s.courseId
  {
    if !s.showAddCourse && !s.showEditCourse then FeatureGrid
    else if s.showAddCourse then AddForm
    else EditForm(s.courseId)
  }

  /** What a click on a card does: the new view, and the route when the card navigates away. */
  datatype Clicked = Clicked(view: ViewState, navigateTo: Option<string>)

  /**
   * A card's `onClick`: the four navigating cards leave the view as it is; "Add Course" sets
   * only the add flag; "Edit Course" fixes the course to 1 and sets the edit flag.
   */
  function Click(s: ViewState, f: Feature): (r: Clicked)
    ensures r.navigateTo == Route(f)
    ensures Route(f).Some? ==> r.view == s
    ensures f == AddCourse ==> r.view == s.(showAddCourse := true)
    ensures f == EditCourse ==> r.view == s.(showEditCourse := true, courseId := Some(1))
  {
    match f
    case AddCourse => Clicked(s.(showAddCourse := true), None)
    case EditCourse => Clicked(s.(courseId := Some(1), showEditCourse := true), None)
    case _ => Clicked(s, Route(f))
  }

  /** The add form's `onClose`: only the add flag is cleared. */
  function CloseAdd(s: ViewState): (r: ViewState)
    ensures !r.showAddCourse && r.showEditCourse == s.showEditCourse && r.courseId == s.courseId
  {
    s.(showAddCourse := false)
  }

  /** The edit form's `onClose`: only the edit flag is cleared; the course id stays. */
  function CloseEdit(s: ViewState): (r: ViewState)
    ensures !r.showEditCourse && r.showAddCourse == s.showAddCourse && r.courseId == s.courseId
  {
    s.(showEditCourse := false)
  }

  /** What the admin can do: click a card of the grid, or close the form that is shown. */
  datatype Event = CardClicked(feature: Feature) | AddClosed | EditClosed

  /** An event is possible only when the panel it belongs to is on screen. */
  predicate Enabled(s: ViewState, e: Event) {
    match e
    case CardClicked(_) => PanelOf(s) == FeatureGrid
    case AddClosed => PanelOf(s) == AddForm
    case EditClosed => PanelOf(s).EditForm?
  }

  function Step(s: ViewState, e: Event): ViewState {
    match e
    case CardClicked(f) => Click(s, f).view
    case AddClosed => CloseAdd(s)
    case EditClosed => CloseEdit(s)
  }

  /** The events of a session, each one possible in the state before it. */
  predicate Possible(s: ViewState, events: seq<Event>)
    decreases |events|
  {
    events == [] || (Enabled(s, events[0]) && Possible(Step(s, events[0]), events[1..]))
  }

  function Run(s: ViewState, events: seq<Event>): ViewState
    decreases |events|
  {
    if events == [] then s else Run(Step(s, events[0]), events[1..])
  }

  /**
   * The view the dashboard can be in: never both forms requested at once, and the edit form
   * only ever for course 1.
   */
  predicate Sound(s: ViewState) {
    !(s.showAddCourse && s.showEditCourse) && (s.showEditCourse ==> s.courseId == Some(1))
  }

  /**
   * Whatever the admin does, the two flags are never set together and the edit form is for
   * course 1, so the panel shown is the one the last click asked for.
   */
  lemma {:induction false} RunStaysSound(s: ViewState, events: seq<Event>)
    requires Sound(s) && Possible(s, events)
    ensures Sound(Run(s, events))
    ensures PanelOf(Run(s, events)).EditForm? ==> PanelOf(Run(s, events)).courseId == Some(1)
    decreases |events|
  {
    if events != [] {
      RunStaysSound(Step(s, events[0]), events[1..]);
    }
  }

  /** Opening a form from the mounted grid and closing it again comes back to the grid. */
  lemma OpenCloseReturnsToGrid(f: Feature)
    requires f == AddCourse || f == EditCourse
    ensures PanelOf(Mounted) == FeatureGrid
    ensures PanelOf(Run(Mounted, [CardClicked(f), if f == AddCourse then AddClosed else EditClosed])) == FeatureGrid
  {
    var e := if f == AddCourse then AddClosed else EditClosed;
    assert Run(Mounted, [CardClicked(f), e]) == Step(Step(Mounted, CardClicked(f)), e) by {
      assert [CardClicked(f), e][1..] == [e];
      assert [e][1..] == [];
      assert Run(Step(Mounted, CardClicked(f)), [e]) == Step(Step(Mounted, CardClicked(f)), e);
    }
  }
}
