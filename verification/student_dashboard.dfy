/**
 * The student dashboard: the two requests it makes on mount, the statistics cards, one card
 * per enrolled course with its chips and progress bar, and the recent-activity list.
 */
module StudentDashboard {
  import opened Options
  import opened JsNumber
  import opened CourseModel
  import opened Http
  import opened Colors

  /** An enrollment as the back end lists it: the course, the progress percentage and dates. */
  datatype Enrollment = Enrollment(
    course: Course,
    progress: Option<int>,
    status: string,
    enrolledAt: Option<string>,
    lastAccessedAt: Option<string>)

  /** The student's totals. */
  datatype Stats = Stats(totalCourses: int, completedCourses: int, totalHours: int, averageProgress: int)

  /**
   * `getProgressColor`: eighty and above is success, fifty up to eighty is warning, anything
   * lower is error.
   */
  function ProgressColor(progress: int): (c: Color)
    ensures c == Success <==> progress >= 80
    ensures c == Warning <==> 50 <= progress < 80
    ensures c == Error <==> progress < 50
  {
    if progress >= 80 then Success
    else if progress >= 50 then Warning
    else Error
  }

  /** The three progress colours from worst to best. */
  function Rank(c: Color): int {
    match c
    case Error => 0
    case Warning => 1
    case Success => 2
    case _ => 0
  }

  /** More progress never gives a worse colour. */
  lemma ProgressColorMonotone(p: int, q: int)
    requires p <= q
    ensures Rank(ProgressColor(p)) <= Rank(ProgressColor(q))
  {
  }

  /** `enrollment.progress || 0`: a missing progress, and a zero one, show as zero. */
  function ShownProgress(e: Enrollment): (p: int)
    ensures e.progress.None? ==> p == 0
    ensures e.progress.Some? ==> p == e.progress.value
  {
    match e.progress
    case Some(p) => if p != 0 then p else 0
    case None => 0
  }

  /**
   * `lastAccessedAt || enrolledAt`: the date of the last access when there is one that is not
   * the empty string, otherwise the enrollment date.
   */
  function LastAccessed(e: Enrollment): (d: Option<string>)
    ensures d == e.lastAccessedAt || d == e.enrolledAt
    ensures d == e.lastAccessedAt <== e.lastAccessedAt.Some? && e.lastAccessedAt.value != ""
    ensures d == e.enrolledAt <== e.lastAccessedAt.None? || e.lastAccessedAt == Some("")
  {
    match e.lastAccessedAt
    case Some(date) => if date != "" then e.lastAccessedAt else e.enrolledAt
    case None => e.enrolledAt
  }

  /** The status chip: success for a completed enrollment, primary for every other status. */
  function StatusColor(status: string): (c: Color)
    ensures c == Success <==> status == "COMPLETED"
    ensures c == Primary <==> status != "COMPLETED"
  {
    if status == "COMPLETED" then Success else Primary
  }

  /**
   * The difficulty chip of a course card: success for `Beginner`, warning for `Intermediate`,
   * and error for any other text, so that a card never shows the default colour.
   */
  function DifficultyChip(difficulty: string): (c: Color)
    ensures c == Success <==> difficulty == "Beginner"
    ensures c == Warning <==> difficulty == "Intermediate"
    ensures c == Error <==> difficulty != "Beginner" && difficulty != "Intermediate"
  {
    if difficulty == "Beginner" then Success
    else if difficulty == "Intermediate" then Warning
    else Error
  }

  /**
   * The dashboard's chip agrees with the catalog's colour on every known level and differs
   * from it exactly on unknown text, which the catalog shows as default and the dashboard as
   * error.
   */
  lemma DifficultyChipAgreesWithCatalog(difficulty: string)
    ensures DifficultyChip(difficulty) == DifficultyColor(difficulty)
      <==> difficulty in {"Beginner", "Intermediate", "Advanced"}
    ensures DifficultyChip(difficulty) != DifficultyColor(difficulty) ==>
      DifficultyChip(difficulty) == Error && DifficultyColor(difficulty) == Default
  {
  }

  /** A statistics card: its caption and the text of its value. */
  datatype StatCard = StatCard(caption: string, text: string)

  /**
   * A card showing a number, followed by a percent sign when asked for one; either way the
   * number reads back from the text.
   */
  function NumberCard(caption: string, n: int, percent: bool): (card: StatCard)
    ensures card.caption == caption && ParseInt(card.text) == Int(n)
    ensures card.text == IntToDecimal(n) + (if percent then "%" else "")
  {
    if percent then
      ParseIntReadsLeadingInteger(n, "%");
      StatCard(caption, IntToDecimal(n) + "%")
    else
      ParseIntRoundTrip(n);
      StatCard(caption, IntToDecimal(n))
  }

  /** The four totals in the order the cards show them. */
  function Totals(stats: Stats): seq<int> {
    [stats.totalCourses, stats.completedCourses, stats.totalHours, stats.averageProgress]
  }

  const Captions: seq<string> := ["Enrolled Courses", "Completed Courses", "Hours Learned", "Average Progress"]

  /**
   * The four statistics cards, in order; only the last, the average progress, carries a
   * percent sign, and each reads back as the total it shows.
   */
  function StatCards(stats: Stats): (cards: seq<StatCard>)
    ensures |cards| == 4
    ensures forall i :: 0 <= i < 4 ==> cards[i].caption == Captions[i] && ParseInt(cards[i].text) == Int(Totals(stats)[i])
    ensures forall i :: 0 <= i < 4 ==> cards[i].text == IntToDecimal(Totals(stats)[i]) + (if i == 3 then "%" else "")
  {
    seq(4, i requires 0 <= i < 4 => NumberCard(Captions[i], Totals(stats)[i], i == 3))
  }

  /** What a course card shows that depends on the enrollment. */
  datatype CourseCard = CourseCard(
    difficultyChip: Color,
    progress: int,
    progressColor: Color,
    statusChip: Color,
    link: string)

  /** A course card: the bar's value and colour both use the shown progress. */
  function Card(e: Enrollment): (card: CourseCard)
    ensures card.progress == ShownProgress(e) && card.progressColor == ProgressColor(card.progress)
    ensures card.difficultyChip == DifficultyChip(e.course.difficulty)
    ensures card.statusChip == StatusColor(e.status)
    ensures card.link == "/course/" + IntToDecimal(e.course.id)
  {
    var p := ShownProgress(e);
    CourseCard(DifficultyChip(e.course.difficulty), p, ProgressColor(p), StatusColor(e.status), "/course/" + IntToDecimal(e.course.id))
  }

  /** An entry of the recent-activity list. */
  datatype ActivityItem = ActivityItem(
    primary: string,
    lastAccessed: Option<string>,
    statusChip: Color,
    divider: bool)

  /** How many entries the recent-activity list shows: at most five. */
  function Shown(n: nat): nat {
    if n < 5 then n else 5
  }

  /**
   * The recent-activity list: absent without enrollments, otherwise one entry for each of the
   * first five enrollments in order. An entry has a divider below it when it is not the last
   * enrollment of the whole list, whether or not that enrollment is shown.
   */
  function RecentActivity(es: seq<Enrollment>): (r: Option<seq<ActivityItem>>)
    ensures r.None? <==> |es| == 0
    ensures r.Some? ==> |r.value| == Shown(|es|)
    ensures r.Some? ==> forall i :: 0 <= i < |r.value| ==>
      && r.value[i].primary == es[i].course.title + " - " + IntToDecimal(ShownProgress(es[i])) + "% completed"
      && r.value[i].lastAccessed == LastAccessed(es[i])
      && r.value[i].statusChip == StatusColor(es[i].status)
      && (r.value[i].divider <==> i < |es| - 1)
  {
    if |es| == 0 then None
    else
      Some(seq(Shown(|es|), i requires 0 <= i < Shown(|es|) =>
        ActivityItem(es[i].course.title + " - " + IntToDecimal(ShownProgress(es[i])) + "% completed",
                     LastAccessed(es[i]), StatusColor(es[i].status), i < |es| - 1)))
  }

  /**
   * With more than five enrollments every shown entry has a divider, the fifth included; with
   * five or fewer exactly the last entry has none.
   */
  lemma RecentActivityDividers(es: seq<Enrollment>)
    requires |es| > 0
    ensures |es| > 5 ==> forall i :: 0 <= i < |RecentActivity(es).value| ==> RecentActivity(es).value[i].divider
    ensures |es| <= 5 ==> forall i :: 0 <= i < |RecentActivity(es).value| ==>
      (!RecentActivity(es).value[i].divider <==> i == |RecentActivity(es).value| - 1)
  {
  }

  /** The page's state. */
  datatype DashboardState = DashboardState(enrolled: seq<Enrollment>, stats: Stats, loading: bool, error: string)

  const LoadErrorMessage := "Failed to load dashboard data."

  /** The page as it mounts: no enrollments, zero totals, loading. */
  const Mounted := DashboardState([], Stats(0, 0, 0, 0), true, "")

  /**
   * `fetchDashboardData` after both requests settle: when both succeed the enrollments and the
   * totals are stored and the error cleared; when either fails neither is stored and the error
   * is set. Loading ends in both cases.
   */
  function Fetched(s: DashboardState, enrollments: Outcome<seq<Enrollment>>, stats: Outcome<Stats>): (r: DashboardState)
    ensures !r.loading
    ensures enrollments.Succeeded? && stats.Succeeded? ==>
      r.enrolled == enrollments.data && r.stats == stats.data && r.error == ""
    ensures enrollments.Failed? || stats.Failed? ==>
      r.enrolled == s.enrolled && r.stats == s.stats && r.error == LoadErrorMessage
  {
    match (enrollments, stats)
    case (Succeeded(es), Succeeded(totals)) => DashboardState(es, totals, false, "")
    case _ => s.(loading := false, error := LoadErrorMessage)
  }

  /** The course section: the prompt to browse the catalog, or one card per enrollment. */
  datatype CourseSection = BrowsePrompt | Cards(cards: seq<CourseCard>)

  datatype Screen =
    | Spinner
    | Dashboard(alert: Option<string>, stats: seq<StatCard>, courses: CourseSection, activity: Option<seq<ActivityItem>>)

  /**
   * The page: only a spinner while loading; afterwards the error alert when there is an error,
   * next to the statistics, the courses or the prompt when there are none, and the activity.
   */
  function Render(s: DashboardState): (screen: Screen)
    ensures screen.Spinner? <==> s.loading
    ensures screen.Dashboard? ==> (screen.alert.Some? <==> s.error != "")
    ensures screen.Dashboard? && screen.alert.Some? ==> screen.alert.value == s.error
    ensures screen.Dashboard? ==> (screen.courses.BrowsePrompt? <==> |s.enrolled| == 0)
    ensures screen.Dashboard? && screen.courses.Cards? ==>
      |screen.courses.cards| == |s.enrolled| && forall i :: 0 <= i < |s.enrolled| ==> screen.courses.cards[i] == Card(s.enrolled[i])
    ensures screen.Dashboard? ==> screen.activity == RecentActivity(s.enrolled) && screen.stats == StatCards(s.stats)
  {
    if s.loading then Spinner
    else
      Dashboard(if s.error != "" then Some(s.error) else None,
                StatCards(s.stats),
                if |s.enrolled| == 0 then BrowsePrompt else Cards(seq(|s.enrolled|, i requires 0 <= i < |s.enrolled| => Card(s.enrolled[i]))),
                RecentActivity(s.enrolled))
  }

  /**
   * Once the requests settle the dashboard is shown, with an alert exactly when one of them
   * failed; a failed load from the mounted page shows the browse prompt and no activity.
   */
  lemma SettledDashboard(enrollments: Outcome<seq<Enrollment>>, stats: Outcome<Stats>)
    ensures Render(Fetched(Mounted, enrollments, stats)).Dashboard?
    ensures Render(Fetched(Mounted, enrollments, stats)).alert.Some? <==> enrollments.Failed? || stats.Failed?
    ensures enrollments.Failed? || stats.Failed? ==>
      Render(Fetched(Mounted, enrollments, stats)).courses.BrowsePrompt? && Render(Fetched(Mounted, enrollments, stats)).activity.None?
  {
  }
}
