/**
 * The admin enrollments page: one request on mount, then a spinner, an error alert or one
 * card per enrollment, with a status chip coloured without regard to case.
 */
module AdminEnrollments {
  import opened Options
  import opened JsText
  import opened JsNumber
  import opened Http
  import opened Colors
  import StudentDashboard

  /** An enrollment as the admin listing returns it; a `null` or absent field is `None`. */
  datatype EnrollmentRecord = EnrollmentRecord(
    id: int,
    courseId: Option<int>,
    userId: Option<int>,
    status: Option<string>)

  const NoId := "—"

  /** `id || "—"`: a missing or zero id shows as a dash, any other id as its decimal text. */
  function DisplayId(id: Option<int>): (text: string)
    ensures text == NoId <==> id.None? || id == Some(0)
    ensures text != NoId ==> ParseInt(text) == Int(id.value)
  {
    match id
    case Some(n) =>
      if n != 0 then
        ParseIntRoundTrip(n);
        var text := IntToDecimal(n);
        assert text != NoId by {
          assert IsDigit(text[0]) || text[0] == '-';
        }
        text
      else NoId
    case None => NoId
  }

  /** The dash is not a number, so no shown id can be mistaken for it. */
  lemma DashIsNotANumber()
    ensures ParseInt(NoId) == NaN
  {
    ParseIntWithoutDigits(NoId);
  }

  /** Lower-casing leaves a string without capital letters unchanged. */
  lemma LowerCaseIsFixed(s: string)
    requires forall i :: 0 <= i < |s| ==> !('A' <= s[i] <= 'Z')
    ensures ToLower(s) == s
  {
  }

  /** Lower-casing a string gives a lower-case word exactly when the two agree up to case. */
  lemma ReadsAs(s: string, word: string)
    requires forall i :: 0 <= i < |word| ==> !('A' <= word[i] <= 'Z')
    ensures ToLower(s) == word <==> EqualIgnoringCase(s, word)
  {
    LowerCaseIsFixed(word);
    ToLowerEqualIffEqualIgnoringCase(s, word);
  }

  /**
   * The status chip: `status.toLowerCase()` compared with `completed` (success) and then with
   * `pending` (warning); any other status gets the default colour.
   */
  function StatusColor(status: string): (c: Color)
    ensures c == Success <==> EqualIgnoringCase(status, "completed")
    ensures c == Warning <==> EqualIgnoringCase(status, "pending")
    ensures c == Default <==> !EqualIgnoringCase(status, "completed") && !EqualIgnoringCase(status, "pending")
  {
    ReadsAs(status, "completed");
    ReadsAs(status, "pending");
    assert EqualIgnoringCase(status, "completed") ==> |status| == 9;
    assert EqualIgnoringCase(status, "pending") ==> |status| == 7;
    var lower := ToLower(status);
    if lower == "completed" then Success
    else if lower == "pending" then Warning
    else Default
  }

  /** Two statuses that differ only in case get the same colour. */
  lemma StatusColorIgnoresCase(a: string, b: string)
    requires EqualIgnoringCase(a, b)
    ensures StatusColor(a) == StatusColor(b)
  {
    forall t | EqualIgnoringCase(a, t) ensures EqualIgnoringCase(b, t) {
      assert forall i :: 0 <= i < |a| ==> LowerChar(b[i]) == LowerChar(a[i]) == LowerChar(t[i]);
    }
    forall t | EqualIgnoringCase(b, t) ensures EqualIgnoringCase(a, t) {
      assert forall i :: 0 <= i < |a| ==> LowerChar(a[i]) == LowerChar(b[i]) == LowerChar(t[i]);
    }
  }

  /**
   * Only this page ignores case: a status written `Completed` is success here but primary on
   * the student dashboard.
   */
  lemma OnlyAdminIgnoresCase()
    ensures StatusColor("Completed") == Success
    ensures StudentDashboard.StatusColor("Completed") == Primary
  {
    assert EqualIgnoringCase("Completed", "completed") by {
      assert LowerChar('C') == 'c';
    }
  }

  /** What an enrollment card shows that depends on the record. */
  datatype EnrollmentCard = EnrollmentCard(courseIdText: string, userIdText: string, statusChip: Color)

  /** The page's state. */
  datatype EnrollmentsState = EnrollmentsState(enrollments: seq<EnrollmentRecord>, loading: bool, err: string)

  const LoadErrorMessage := "Failed to load enrollments"

  /** The page as it mounts: nothing listed, loading. */
  const Mounted := EnrollmentsState([], true, "")

  /**
   * `fetchEnrollments` after its request settles: success stores the list and clears the
   * error, failure keeps the list and sets the error; loading ends either way.
   */
  function Loaded(s: EnrollmentsState, outcome: Outcome<seq<EnrollmentRecord>>): (r: EnrollmentsState)
    ensures !r.loading
    ensures outcome.Succeeded? ==> r.enrollments == outcome.data && r.err == ""
    ensures outcome.Failed? ==> r.enrollments == s.enrollments && r.err == LoadErrorMessage
  {
    match outcome
    case Succeeded(records) => EnrollmentsState(records, false, "")
    case Failed => s.(loading := false, err := LoadErrorMessage)
  }

  datatype Screen = Spinner | ErrorAlert(message: string) | Listing(cards: seq<EnrollmentCard>) | RenderFailure

  /**
   * The page, in order of priority: only the spinner while loading; otherwise only the alert
   * when there is an error; otherwise one card per enrollment. A record without a status
   * makes `toLowerCase` throw, and the page fails to render.
   */
  function Render(s: EnrollmentsState): (screen: Screen)
    ensures screen.Spinner? <==> s.loading
    ensures screen.ErrorAlert? <==> !s.loading && s.err != ""
    ensures screen.ErrorAlert? ==> screen.message == s.err
    ensures screen.RenderFailure? <==> !s.loading && s.err == "" && exists i :: 0 <= i < |s.enrollments| && s.enrollments[i].status.None?
    ensures screen.Listing? ==> |screen.cards| == |s.enrollments| && forall i :: 0 <= i < |s.enrollments| ==>
      screen.cards[i] == EnrollmentCard(DisplayId(s.enrollments[i].courseId), DisplayId(s.enrollments[i].userId),
                                        StatusColor(s.enrollments[i].status.value))
  {
    if s.loading then Spinner
    else if s.err != "" then ErrorAlert(s.err)
    else if exists i :: 0 <= i < |s.enrollments| && s.enrollments[i].status.None? then RenderFailure
    else
      Listing(seq(|s.enrollments|, i requires 0 <= i < |s.enrollments| =>
        EnrollmentCard(DisplayId(s.enrollments[i].courseId), DisplayId(s.enrollments[i].userId),
                       StatusColor(s.enrollments[i].status.value))))
  }

  /**
   * After the request settles the spinner is gone: a failed request shows only the alert with
   * its message, and a successful one lists every record that has a status.
   */
  lemma SettledScreen(outcome: Outcome<seq<EnrollmentRecord>>)
    ensures outcome.Failed? ==> Render(Loaded(Mounted, outcome)) == ErrorAlert(LoadErrorMessage)
    ensures outcome.Succeeded? && (forall i :: 0 <= i < |outcome.data| ==> outcome.data[i].status.Some?) ==>
      Render(Loaded(Mounted, outcome)).Listing? && |Render(Loaded(Mounted, outcome)).cards| == |outcome.data|
  {
  }
}
