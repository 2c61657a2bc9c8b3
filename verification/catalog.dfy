/**
 * The public course catalog page: the filter and pagination record, the query it sends,
 * the normalisation of the two response shapes, and the page's `courses`/`error`/`loading`
 * state with its render guards.
 */
module Catalog {
  import opened Options
  import opened JsNumber
  import opened JsValue
  import opened CourseModel
  import opened Http

  /** The filter record: search text, category, difficulty, page number and page size. */
  datatype Filters = Filters(search: string, category: string, difficulty: string, page: int, limit: int)

  /** The three fields the search box and the two selects edit. */
  datatype FilterField = Search | Category | Difficulty

  /** The filters the page mounts with: no constraint, first page, twelve per page. */
  const InitialFilters: Filters := Filters("", "", "", 1, 12)

  function FieldValue(f: Filters, field: FilterField): string {
    match field
    case Search => f.search
    case Category => f.category
    case Difficulty => f.difficulty
  }

  /**
   * `handleFilterChange`: the edited field takes the new value, the page goes back to 1,
   * and every other field is kept.
   */
  function SetFilter(f: Filters, field: FilterField, value: string): (r: Filters)
    ensures FieldValue(r, field) == value
    ensures forall other :: other != field ==> FieldValue(r, other) == FieldValue(f, other)
    ensures r.page == 1 && r.limit == f.limit
  {
    match field
    case Search => f.(search := value, page := 1)
    case Category => f.(category := value, page := 1)
    case Difficulty => f.(difficulty := value, page := 1)
  }

  /** `handlePageChange`: only the page changes; the three filters and the page size are kept. */
  function SetPage(f: Filters, page: int): (r: Filters)
    ensures r.page == page && r.limit == f.limit
    ensures forall field :: FieldValue(r, field) == FieldValue(f, field)
  {
    f.(page := page)
  }

  /** A filter edit forgets any page chosen before it. */
  lemma FilterChangeForgetsPage(f: Filters, page: int, field: FilterField, value: string)
    ensures SetFilter(SetPage(f, page), field, value) == SetFilter(f, field, value)
  {
  }

  /** The filter record's keys, declared in the record's own order. */
  datatype Key = SearchKey | CategoryKey | DifficultyKey | PageKey | LimitKey

  /**
   * The `params.append(key, value)` call for one field, made only when the value is truthy:
   * then one parameter under that key, holding the value's `String` form, which a truthy
   * string or number never leaves empty.
   */
  function Param(key: Key, v: Value): (r: seq<(Key, string)>)
    ensures r != [] <==> Truthy(v)
    ensures r != [] ==> r == [(key, ToString(v))]
    ensures r != [] && !v.StrList? ==> ToString(v) != ""
  {
    if Truthy(v) then
      if !v.StrList? then TruthyPrintsNonEmpty(v); [(key, ToString(v))]
      else [(key, ToString(v))]
    else []
  }

  /** The keys of the parameters, in order. */
  function Keys(q: seq<(Key, string)>): (ks: seq<Key>)
    ensures |ks| == |q|
    ensures forall i :: 0 <= i < |q| ==> ks[i] == q[i].0
    decreases |q|
  {
    if q == [] then [] else [q[0].0] + Keys(q[1..])
  }

  lemma KeysAppend(a: seq<(Key, string)>, b: seq<(Key, string)>)
    ensures Keys(a + b) == Keys(a) + Keys(b)
  {
  }

  /** `key` when the field's value is truthy, nothing otherwise. */
  function KeyIf(key: Key, present: bool): seq<Key> {
    if present then [key] else []
  }

  lemma ParamKeys(key: Key, v: Value)
    ensures Keys(Param(key, v)) == KeyIf(key, Truthy(v))
  {
  }

  /** Every value is non-empty and is the `String` form of the field its key names. */
  predicate ValuesMatchFilters(q: seq<(Key, string)>, f: Filters) {
    forall i :: 0 <= i < |q| ==>
      && q[i].1 != ""
      && (q[i].0 == SearchKey ==> q[i].1 == f.search)
      && (q[i].0 == CategoryKey ==> q[i].1 == f.category)
      && (q[i].0 == DifficultyKey ==> q[i].1 == f.difficulty)
      && (q[i].0 == PageKey ==> q[i].1 == IntToDecimal(f.page))
      && (q[i].0 == LimitKey ==> q[i].1 == IntToDecimal(f.limit))
  }

  lemma ValuesMatchAppend(a: seq<(Key, string)>, b: seq<(Key, string)>, f: Filters)
    requires ValuesMatchFilters(a, f) && ValuesMatchFilters(b, f)
    ensures ValuesMatchFilters(a + b, f)
  {
    forall i | 0 <= i < |a + b| ensures (a + b)[i] == if i < |a| then a[i] else b[i - |a|] {
    }
  }

  lemma ValuesMatchNumber(key: Key, n: int, f: Filters)
    requires key == PageKey || key == LimitKey
    requires key == PageKey ==> n == f.page
    requires key == LimitKey ==> n == f.limit
    ensures ValuesMatchFilters(Param(key, Num(n)), f)
  {
    if n != 0 {
      TruthyPrintsNonEmpty(Num(n));
    }
  }

  /**
   * The parameters of `fetchCourses`, in the order the fields are visited: at most one per
   * field, none with an empty value. Which keys appear is `QueryHoldsTruthyFields`, and what
   * each holds is `QueryValues`.
   */
  function Query(f: Filters): (q: seq<(Key, string)>)
    ensures |q| <= 5
    ensures forall i :: 0 <= i < |q| ==> q[i].1 != ""
  {
    Param(SearchKey, Str(f.search)) + QueryTail(f)
  }

  function QueryTail(f: Filters): (q: seq<(Key, string)>)
    ensures |q| <= 4
    ensures forall i :: 0 <= i < |q| ==> q[i].1 != ""
  {
    Param(CategoryKey, Str(f.category))
    + (Param(DifficultyKey, Str(f.difficulty)) + (Param(PageKey, Num(f.page)) + Param(LimitKey, Num(f.limit))))
  }

  /**
   * The query's keys are exactly the keys of the truthy filter fields, in the record's key
   * order: empty strings and a page or size of 0 never appear, and no key appears twice.
   */
  lemma QueryHoldsTruthyFields(f: Filters)
    ensures Keys(Query(f)) == KeyIf(SearchKey, f.search != "") + (KeyIf(CategoryKey, f.category != "")
                            + (KeyIf(DifficultyKey, f.difficulty != "") + (KeyIf(PageKey, f.page != 0)
                            + KeyIf(LimitKey, f.limit != 0))))
  {
    var q5 := Param(LimitKey, Num(f.limit));
    var q4 := Param(PageKey, Num(f.page)) + q5;
    var q3 := Param(DifficultyKey, Str(f.difficulty)) + q4;
    var q2 := Param(CategoryKey, Str(f.category)) + q3;
    ParamKeys(LimitKey, Num(f.limit));
    ParamKeys(PageKey, Num(f.page));
    ParamKeys(DifficultyKey, Str(f.difficulty));
    ParamKeys(CategoryKey, Str(f.category));
    ParamKeys(SearchKey, Str(f.search));
    KeysAppend(Param(PageKey, Num(f.page)), q5);
    KeysAppend(Param(DifficultyKey, Str(f.difficulty)), q4);
    KeysAppend(Param(CategoryKey, Str(f.category)), q3);
    KeysAppend(Param(SearchKey, Str(f.search)), q2);
  }

  /** Each parameter's value is the non-empty `String` form of the field its key names. */
  lemma QueryValues(f: Filters)
    ensures ValuesMatchFilters(Query(f), f)
  {
    var q5 := Param(LimitKey, Num(f.limit));
    var q4 := Param(PageKey, Num(f.page)) + q5;
    var q3 := Param(DifficultyKey, Str(f.difficulty)) + q4;
    var q2 := Param(CategoryKey, Str(f.category)) + q3;
    ValuesMatchNumber(PageKey, f.page, f);
    ValuesMatchNumber(LimitKey, f.limit, f);
    ValuesMatchAppend(Param(PageKey, Num(f.page)), q5, f);
    ValuesMatchAppend(Param(DifficultyKey, Str(f.difficulty)), q4, f);
    ValuesMatchAppend(Param(CategoryKey, Str(f.category)), q3, f);
    ValuesMatchAppend(Param(SearchKey, Str(f.search)), q2, f);
  }

  /** What `setCourses` stores: an array of courses, or the envelope object itself. */
  datatype Held = Array(items: seq<Course>) | NonArray

  /**
   * A list response body: a bare array, an envelope with optional `content` and
   * `totalPages`, or `null`.
   */
  datatype ListBody = Bare(items: seq<Course>) | Envelope(content: Option<seq<Course>>, totalPages: Option<int>) | NullBody

  /** The normalised listing the page keeps. */
  datatype Listing = Listing(courses: Held, totalPages: int)

  /**
   * `content || data` and `totalPages || 1`. A bare array is its own item list with one page;
   * an envelope contributes its `content` (any array is truthy, even an empty one) and its page
   * count unless that is missing or 0. An envelope without `content` is stored as it is, which
   * is not an array. A `null` body throws on `.content`, which is `None` here.
   */
  function Normalise(body: ListBody): (r: Option<Listing>)
    ensures r.None? <==> body.NullBody?
    ensures body.Bare? ==> r == Some(Listing(Array(body.items), 1))
    ensures body.Envelope? ==> r.Some? && (r.value.courses.Array? <==> body.content.Some?)
    ensures body.Envelope? && body.content.Some? ==> r.value.courses.items == body.content.value
    ensures r.Some? ==> r.value.totalPages != 0
    ensures r.Some? && r.value.totalPages != 1 ==> body.Envelope? && body.totalPages == Some(r.value.totalPages)
    ensures body.Envelope? && body.totalPages.Some? && body.totalPages.value != 0 ==> r.value.totalPages == body.totalPages.value
  {
    match body
    case NullBody => None
    case Bare(items) => Some(Listing(Array(items), 1))
    case Envelope(content, totalPages) =>
      var courses := if content.Some? then Array(content.value) else NonArray;
      var pages := if totalPages.Some? && totalPages.value != 0 then totalPages.value else 1;
      Some(Listing(courses, pages))
  }

  /**
   * The two endpoint shapes agree: an envelope carrying a list in `content` and no page count
   * normalises exactly like the bare list.
   */
  lemma BareAndEnvelopeAgree(items: seq<Course>)
    ensures Normalise(Envelope(Some(items), None)) == Normalise(Bare(items))
    ensures Normalise(Envelope(Some(items), Some(0))) == Normalise(Bare(items))
  {
  }

  /** The catalog page's state. */
  datatype CatalogState = CatalogState(filters: Filters, courses: Held, totalPages: int, loading: bool, error: string)

  const LoadErrorMessage: string := "Failed to load courses. Please try again."

  /** The state at mount: default filters, no courses, one page, loading, no error. */
  const Mounted: CatalogState := CatalogState(InitialFilters, Array([]), 1, true, "")

  /** A state together with the query of the request it has just issued. */
  datatype Issued = Issued(state: CatalogState, query: seq<(Key, string)>)

  /**
   * The start of `fetchCourses`: `loading` goes up and the current filters are sent; nothing
   * else changes.
   */
  function Fetch(s: CatalogState): (r: Issued)
    ensures r.state.loading
    ensures r.state.(loading := s.loading) == s
    ensures r.query == Query(s.filters)
  {
    Issued(s.(loading := true), Query(s.filters))
  }

  /**
   * A filter edit: the filters change as `SetFilter` says and, since every new filter record
   * re-runs the effect, a fetch is issued for them, always asking for page 1.
   */
  function ChangeFilter(s: CatalogState, field: FilterField, value: string): (r: Issued)
    ensures r.state.filters == SetFilter(s.filters, field, value)
    ensures r.state.loading
    ensures r.state.courses == s.courses && r.state.totalPages == s.totalPages && r.state.error == s.error
    ensures r.query == Query(r.state.filters)
    ensures (PageKey, "1") in r.query
  {
    var r := Fetch(s.(filters := SetFilter(s.filters, field, value)));
    QueryValues(r.state.filters);
    QueryHoldsTruthyFields(r.state.filters);
    assert PageKey in Keys(r.query);
    var i :| 0 <= i < |r.query| && r.query[i].0 == PageKey;
    assert r.query[i] == (PageKey, "1");
    r
  }

  /** A page change: only the page moves, and a fetch is issued for the new filters. */
  function ChangePage(s: CatalogState, page: int): (r: Issued)
    ensures r.state.filters == SetPage(s.filters, page)
    ensures r.state.loading
    ensures r.state.courses == s.courses && r.state.totalPages == s.totalPages && r.state.error == s.error
    ensures r.query == Query(r.state.filters)
  {
    Fetch(s.(filters := SetPage(s.filters, page)))
  }

  /**
   * The end of `fetchCourses`. A usable response replaces the listing and clears the error; a
   * failed request (or a `null` body) sets the fixed message and keeps the previous listing.
   * Either way `loading` drops, and the filters are untouched.
   */
  function Complete(s: CatalogState, outcome: Outcome<ListBody>): (r: CatalogState)
    ensures !r.loading && r.filters == s.filters
    ensures outcome.Succeeded? && !outcome.data.NullBody? ==>
      r.error == "" && Some(Listing(r.courses, r.totalPages)) == Normalise(outcome.data)
    ensures outcome.Failed? || outcome.data.NullBody? ==>
      r.error == LoadErrorMessage && r.courses == s.courses && r.totalPages == s.totalPages
  {
    var listing := if outcome.Succeeded? then Normalise(outcome.data) else None;
    match listing
    case Some(l) => s.(courses := l.courses, totalPages := l.totalPages, error := "", loading := false)
    case None => s.(error := LoadErrorMessage, loading := false)
  }

  /**
   * No response is ever discarded as stale: whichever response arrives last decides the
   * listing, whatever was issued first and whatever arrived before it. And the first
   * response to arrive already clears `loading`, with the other request still in flight.
   */
  lemma LastResponseWins(s: CatalogState, earlier: Outcome<ListBody>, later: ListBody)
    requires !later.NullBody?
    ensures Complete(Complete(s, earlier), Succeeded(later)).courses == Complete(s, Succeeded(later)).courses
    ensures Complete(Complete(s, earlier), Succeeded(later)).totalPages == Complete(s, Succeeded(later)).totalPages
    ensures !Complete(Fetch(Fetch(s).state).state, earlier).loading
  {
  }

  /** What the page renders. */
  datatype Screen =
    | Spinner
    | CatalogPage(alert: Option<string>, cards: seq<Course>, pagination: bool, emptyMessage: bool)
    | RenderFailure

  /**
   * The render guards: the full-page spinner while loading with no courses; otherwise the
   * page, with the alert when there is an error, the pagination control when there is more
   * than one page and the empty message when loading is over and there are no courses.
   * Courses that are not an array fail at `courses.map`.
   */
  function Render(s: CatalogState): (v: Screen)
    ensures v.Spinner? <==> s.loading && s.courses == Array([])
    ensures v.RenderFailure? <==> s.courses.NonArray?
    ensures v.CatalogPage? ==> v.cards == s.courses.items
    ensures v.CatalogPage? ==> (v.alert.Some? <==> s.error != "") && (v.alert.Some? ==> v.alert.value == s.error)
    ensures v.CatalogPage? ==> (v.pagination <==> s.totalPages > 1)
    ensures v.CatalogPage? ==> (v.emptyMessage <==> !s.loading && s.courses.items == [])
  {
    if s.loading && s.courses == Array([]) then Spinner
    else
      match s.courses
      case NonArray => RenderFailure
      case Array(items) =>
        CatalogPage(if s.error != "" then Some(s.error) else None, items, s.totalPages > 1, !s.loading && items == [])
  }

  /** The spinner and the empty message never show together, and the page mounts on the spinner. */
  lemma SpinnerExcludesEmptyMessage(s: CatalogState)
    ensures Render(s).CatalogPage? && Render(s).emptyMessage ==> !s.loading
    ensures Render(Mounted) == Spinner
  {
  }

  /** A user action or a response arriving. */
  datatype Event = FilterEdited(field: FilterField, value: string) | PageSelected(page: int) | Responded(outcome: Outcome<ListBody>)

  function Step(s: CatalogState, e: Event): CatalogState {
    match e
    case FilterEdited(field, value) => ChangeFilter(s, field, value).state
    case PageSelected(page) => ChangePage(s, page).state
    case Responded(outcome) => Complete(s, outcome)
  }

  /** The state after a sequence of events, applied in order. */
  function Run(s: CatalogState, events: seq<Event>): CatalogState
    decreases |events|
  {
    if events == [] then s else Run(Step(s, events[0]), events[1..])
  }

  /** The pagination control only offers pages from 1 up. */
  predicate ValidPages(events: seq<Event>) {
    forall i :: 0 <= i < |events| && events[i].PageSelected? ==> events[i].page >= 1
  }

  /** What every reachable state keeps: page at least 1, twelve per page, a non-zero page count. */
  predicate Reachable(s: CatalogState) {
    s.filters.page >= 1 && s.filters.limit == 12 && s.totalPages != 0
  }

  /**
   * Every state reached from mount keeps a page of at least 1, a page size of 12 and a page
   * count other than 0, so every query it sends names a page and the size `"12"`.
   */
  lemma {:induction false} RunStaysReachable(s: CatalogState, events: seq<Event>)
    requires Reachable(s) && ValidPages(events)
    ensures Reachable(Run(s, events))
    ensures PageKey in Keys(Query(Run(s, events).filters))
    ensures (LimitKey, "12") in Query(Run(s, events).filters)
    decreases |events|
  {
    if events == [] {
      var f := s.filters;
      QueryHoldsTruthyFields(f);
      QueryValues(f);
      var q := Query(f);
      assert LimitKey in Keys(q);
      var i :| 0 <= i < |q| && q[i].0 == LimitKey;
      assert Decimal(12) == Decimal(1) + [DigitChar(2)] == "12";
      assert q[i] == (LimitKey, "12");
    } else {
      assert ValidPages(events[1..]) by {
        forall i | 0 <= i < |events[1..]| && events[1..][i].PageSelected? ensures events[1..][i].page >= 1 {
          assert events[1..][i] == events[i + 1];
        }
      }
      RunStaysReachable(Step(s, events[0]), events[1..]);
    }
  }
}
