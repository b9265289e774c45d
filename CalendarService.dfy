/**
 * `GoogleCalendarService.fetch_events`: the month-grid window that is asked of
 * the calendar API, the merge of the per-calendar results with each calendar's
 * failure isolated, and the final sort by start.
 *
 * The API call and the parsing of one event item are not modelled: the per-
 * calendar call is the parameter `fetch` (a list of items, or the error it
 * raised) and the conversion of one item into an internal event is the
 * parameter `convert` (None when it raises).
 */
module CalendarService {
  import opened Wrappers
  import opened Dates
  import Json

  /** The grid always spans six whole weeks. */
  const GridDays := 42

  /** The window sent as timeMin / timeMax, as ordinals of the two dates. */
  datatype Window = Window(timeMin: int, timeMax: int)

  /** An internal calendar event; only its start key matters here. */
  datatype CalendarEvent = CalendarEvent(start: int, calendarId: string, calendarName: string, summary: string)

  datatype CalendarConfig = CalendarConfig(id: string, name: string)

  /** The service's state: whether the API client was built, and the configured calendars in dict order. */
  datatype GoogleCalendarService = GoogleCalendarService(initialized: bool, calendarConfigs: seq<CalendarConfig>)

  datatype FetchError = HttpError(status: int) | Timeout | UnexpectedError

  /** What `events().list(...).execute()` gave for one calendar: the response's "items" (if present) or an exception. */
  datatype FetchOutcome = Fetched(items: Option<seq<Json.Value>>) | Failed(error: FetchError)

  datatype CalendarData = CalendarData(events: seq<CalendarEvent>, updated: string)

  /** `fetch_events` returns its data, or raises OverflowError when the window leaves year 9999. */
  datatype FetchResult = Done(data: CalendarData) | DateOverflow

  // ---------------------------------------------------------------------------
  // The visible grid window
  // ---------------------------------------------------------------------------

  /** The first grid day: day 1 of the month minus its Monday-based weekday. */
  function GridStart(year: int, month: int): (start: int)
    requires MinYear <= year <= MaxYear && 1 <= month <= 12
    ensures Weekday(start) == 0
    ensures start <= Ordinal(year, month, 1) <= start + 6
  {
    var first := Ordinal(year, month, 1);
    BackToMonday(first);
    first - Weekday(first)
  }

  /**
   * The window [timeMin, timeMax] for the month; None where `timedelta(days=42)`
   * would leave the representable dates, which happens for December 9999 only.
   */
  function VisibleWindow(year: int, month: int): (r: Option<Window>)
    requires MinYear <= year <= MaxYear && 1 <= month <= 12
    ensures r.None? <==> (year, month) == (MaxYear, 12)
    ensures r.Some? ==> r.value == Window(GridStart(year, month), GridStart(year, month) + GridDays)
  {
    WindowOverflowsOnlyInLastMonth(year, month);
    var start := GridStart(year, month);
    if start + GridDays > MaxOrdinal then None else Some(Window(start, start + GridDays))
  }

  lemma {:induction false} WindowOverflowsOnlyInLastMonth(year: int, month: int)
    requires MinYear <= year <= MaxYear && 1 <= month <= 12
    ensures GridStart(year, month) + GridDays > MaxOrdinal <==> (year, month) == (MaxYear, 12)
  {
    if year < MaxYear {
      DaysBeforeYearMonotone(year, MaxYear - 1);
      assert DaysBeforeYear(MaxYear - 1) == 3651329;
    } else {
      assert DaysBeforeYear(MaxYear) == 3651694;
    }
  }

  /** The window end is six weeks after its start, so it is a Monday too. */
  lemma WindowEndIsMonday(year: int, month: int)
    requires MinYear <= year <= MaxYear && 1 <= month <= 12
    ensures Weekday(GridStart(year, month) + GridDays) == 0
  {
    var start := GridStart(year, month);
    SixWeeksLater(start);
    assert Weekday(start + GridDays) == Weekday(start) == 0;
  }

  /**
   * The grid start as a calendar date: day 1 itself when the month starts on a
   * Monday, otherwise a day of the previous month (of the previous year for
   * January), `weekday` days before day 1.
   */
  lemma {:induction false} GridStartDate(year: int, month: int)
    requires MinYear <= year <= MaxYear && 1 <= month <= 12
    ensures var wd := Weekday(Ordinal(year, month, 1));
      var (py, pm) := PreviousMonth(year, month);
      if wd == 0 then GridStart(year, month) == Ordinal(year, month, 1)
      else
        (year, month) != (MinYear, 1) &&
        ValidDate(py, pm, DaysInMonth(py, pm) - wd + 1) &&
        GridStart(year, month) == Ordinal(py, pm, DaysInMonth(py, pm) - wd + 1)
  {
    var wd := Weekday(Ordinal(year, month, 1));
    if wd != 0 {
      MonthFollowsPrevious(year, month);
    }
  }

  /** Every day of the month lies in the window, within its first six weeks. */
  lemma {:induction false} MonthInsideWindow(year: int, month: int, day: int)
    requires ValidDate(year, month, day)
    ensures GridStart(year, month) <= Ordinal(year, month, day) < GridStart(year, month) + GridDays
  {
    OrdinalWithinMonth(year, month, day);
  }

  // ---------------------------------------------------------------------------
  // Merging the calendars
  // ---------------------------------------------------------------------------

  /**
   * The events one successful call appends: items are converted in order and
   * the first conversion that raises ends the calendar's contribution (the
   * exception leaves the inner loop, and what was appended stays appended).
   */
  function Converted(items: seq<Json.Value>, cfg: CalendarConfig,
                     convert: (Json.Value, string, string) -> Option<CalendarEvent>): (es: seq<CalendarEvent>)
    ensures |es| <= |items|
    ensures forall i :: 0 <= i < |es| ==> convert(items[i], cfg.id, cfg.name) == Some(es[i])
    ensures |es| == |items| || convert(items[|es|], cfg.id, cfg.name).None?
  {
    if items == [] then []
    else match convert(items[0], cfg.id, cfg.name)
      case None => []
      case Some(e) => [e] + Converted(items[1..], cfg, convert)
  }

  /** The conversion from item j on: nothing if item j fails, else its event then the rest. */
  lemma ConvertedFrom(items: seq<Json.Value>, j: nat, cfg: CalendarConfig,
                      convert: (Json.Value, string, string) -> Option<CalendarEvent>)
    requires j < |items|
    ensures Converted(items[j..], cfg, convert) ==
            match convert(items[j], cfg.id, cfg.name)
            case None => []
            case Some(e) => [e] + Converted(items[j + 1..], cfg, convert)
  {
    assert items[j..][0] == items[j];
    assert items[j..][1..] == items[j + 1..];
  }

  /** What one calendar adds to `all_events`: nothing when its call failed. */
  function Contribution(outcome: FetchOutcome, cfg: CalendarConfig,
                        convert: (Json.Value, string, string) -> Option<CalendarEvent>): (c: seq<CalendarEvent>)
    ensures outcome.Failed? ==> c == []
    ensures outcome.Fetched? ==> |c| <= |outcome.items.GetOr([])|
  {
    match outcome
    case Failed(_) => []
    case Fetched(items) => Converted(items.GetOr([]), cfg, convert)
  }

  /** The lists appended one after another. */
  function Concat(parts: seq<seq<CalendarEvent>>): seq<CalendarEvent> {
    if parts == [] then [] else Concat(parts[..|parts| - 1]) + parts[|parts| - 1]
  }

  lemma ConcatAppend(parts: seq<seq<CalendarEvent>>, part: seq<CalendarEvent>)
    ensures Concat(parts + [part]) == Concat(parts) + part
  {
    assert (parts + [part])[..|parts|] == parts;
  }

  lemma {:induction false} ConcatSplit(a: seq<seq<CalendarEvent>>, b: seq<seq<CalendarEvent>>)
    ensures Concat(a + b) == Concat(a) + Concat(b)
    decreases |b|
  {
    if b == [] {
      assert a + b == a;
    } else {
      var init, last := b[..|b| - 1], b[|b| - 1];
      assert a + b == (a + init) + [last];
      ConcatSplit(a, init);
      ConcatAppend(a + init, last);
    }
  }

  /** An event is in the concatenation iff it is in one of the parts. */
  lemma {:induction false} ConcatMembership(parts: seq<seq<CalendarEvent>>, e: CalendarEvent)
    ensures e in Concat(parts) <==> exists i :: 0 <= i < |parts| && e in parts[i]
  {
    if parts != [] {
      var init := parts[..|parts| - 1];
      ConcatMembership(init, e);
      if e in Concat(init) {
        var i :| 0 <= i < |init| && e in init[i];
        assert parts[i] == init[i];
      }
      if exists i :: 0 <= i < |parts| && e in parts[i] {
        var i :| 0 <= i < |parts| && e in parts[i];
        if i < |init| { assert init[i] == parts[i]; }
      }
    }
  }

  /** What each configured calendar adds, in configuration order. */
  function Contributions(configs: seq<CalendarConfig>, w: Window,
                         fetch: (string, Window) -> FetchOutcome,
                         convert: (Json.Value, string, string) -> Option<CalendarEvent>): (parts: seq<seq<CalendarEvent>>)
    ensures |parts| == |configs|
    ensures forall i :: 0 <= i < |configs| ==> parts[i] == Contribution(fetch(configs[i].id, w), configs[i], convert)
  {
    seq(|configs|, i requires 0 <= i < |configs| => Contribution(fetch(configs[i].id, w), configs[i], convert))
  }

  /** `all_events` after the loop over the configured calendars, before sorting. */
  function Collected(configs: seq<CalendarConfig>, w: Window,
                     fetch: (string, Window) -> FetchOutcome,
                     convert: (Json.Value, string, string) -> Option<CalendarEvent>): seq<CalendarEvent>
  {
    Concat(Contributions(configs, w, fetch, convert))
  }

  /** An event is collected iff some calendar's contribution holds it. */
  lemma CollectedMembership(configs: seq<CalendarConfig>, w: Window,
                            fetch: (string, Window) -> FetchOutcome,
                            convert: (Json.Value, string, string) -> Option<CalendarEvent>,
                            e: CalendarEvent)
    ensures e in Collected(configs, w, fetch, convert) <==>
            exists i :: 0 <= i < |configs| && e in Contribution(fetch(configs[i].id, w), configs[i], convert)
  {
    ConcatMembership(Contributions(configs, w, fetch, convert), e);
  }

  lemma CollectedAppend(configs: seq<CalendarConfig>, cfg: CalendarConfig, w: Window,
                        fetch: (string, Window) -> FetchOutcome,
                        convert: (Json.Value, string, string) -> Option<CalendarEvent>)
    ensures Collected(configs + [cfg], w, fetch, convert) ==
            Collected(configs, w, fetch, convert) + Contribution(fetch(cfg.id, w), cfg, convert)
  {
    var parts := Contributions(configs, w, fetch, convert);
    assert Contributions(configs + [cfg], w, fetch, convert) == parts + [Contribution(fetch(cfg.id, w), cfg, convert)];
    ConcatAppend(parts, Contribution(fetch(cfg.id, w), cfg, convert));
  }

  /**
   * Error isolation: when calendar i's call fails (and every other calendar's
   * answer is unchanged), the result is what the calendars before and after it
   * give, with nothing from calendar i.
   */
  lemma FailureIsIsolated(configs: seq<CalendarConfig>, i: int, w: Window,
                          fetch: (string, Window) -> FetchOutcome,
                          failing: (string, Window) -> FetchOutcome,
                          convert: (Json.Value, string, string) -> Option<CalendarEvent>)
    requires 0 <= i < |configs|
    requires failing(configs[i].id, w).Failed?
    requires forall j :: 0 <= j < |configs| && j != i ==> failing(configs[j].id, w) == fetch(configs[j].id, w)
    ensures Collected(configs, w, failing, convert) ==
            Collected(configs[..i], w, fetch, convert) + Collected(configs[i + 1..], w, fetch, convert)
  {
    var before := Contributions(configs[..i], w, fetch, convert);
    var after := Contributions(configs[i + 1..], w, fetch, convert);
    assert Contributions(configs, w, failing, convert) == (before + [[]]) + after;
    ConcatSplit(before + [[]], after);
    ConcatAppend(before, []);
  }

  // ---------------------------------------------------------------------------
  // The final sort: Python's list.sort is stable
  // ---------------------------------------------------------------------------

  predicate SortedByStart(s: seq<CalendarEvent>) {
    forall i, j :: 0 <= i < j < |s| ==> s[i].start <= s[j].start
  }

  /** Inserts `e` before the first element whose start is not earlier than its own. */
  function InsertByStart(e: CalendarEvent, s: seq<CalendarEvent>): seq<CalendarEvent> {
    if s == [] || e.start <= s[0].start then [e] + s
    else [s[0]] + InsertByStart(e, s[1..])
  }

  /** `sorted(s, key=lambda e: e.start)`, as a stable insertion sort. */
  function SortByStart(s: seq<CalendarEvent>): seq<CalendarEvent> {
    if s == [] then [] else InsertByStart(s[0], SortByStart(s[1..]))
  }

  /** The events of `s` with the given start, in their order in `s`. */
  function WithStart(s: seq<CalendarEvent>, start: int): seq<CalendarEvent> {
    if s == [] then []
    else (if s[0].start == start then [s[0]] else []) + WithStart(s[1..], start)
  }

  predicate StartsAtLeast(s: seq<CalendarEvent>, k: int) {
    forall i :: 0 <= i < |s| ==> k <= s[i].start
  }

  lemma {:induction false} InsertByStartLowerBound(e: CalendarEvent, s: seq<CalendarEvent>, k: int)
    requires k <= e.start && StartsAtLeast(s, k)
    ensures StartsAtLeast(InsertByStart(e, s), k)
  {
    if s != [] && e.start > s[0].start {
      InsertByStartLowerBound(e, s[1..], k);
    }
  }

  lemma {:induction false} InsertByStartSorted(e: CalendarEvent, s: seq<CalendarEvent>)
    requires SortedByStart(s)
    ensures SortedByStart(InsertByStart(e, s))
    ensures multiset(InsertByStart(e, s)) == multiset(s) + multiset{e}
  {
    if s != [] && e.start > s[0].start {
      InsertByStartSorted(e, s[1..]);
      InsertByStartLowerBound(e, s[1..], s[0].start);
      var r := InsertByStart(e, s[1..]);
      assert forall j :: 0 <= j < |r| ==> s[0].start <= r[j].start;
      assert s == [s[0]] + s[1..];
    }
  }

  lemma {:induction false} InsertByStartWithStart(e: CalendarEvent, s: seq<CalendarEvent>, k: int)
    ensures WithStart(InsertByStart(e, s), k) == (if e.start == k then [e] else []) + WithStart(s, k)
  {
    if s == [] || e.start <= s[0].start {
      assert ([e] + s)[1..] == s;
    } else {
      InsertByStartWithStart(e, s[1..], k);
      var r := InsertByStart(e, s[1..]);
      assert ([s[0]] + r)[1..] == r;
      var mine: seq<CalendarEvent> := if e.start == k then [e] else [];
      var first: seq<CalendarEvent> := if s[0].start == k then [s[0]] else [];
      assert mine == [] || first == [];
      calc {
        WithStart(InsertByStart(e, s), k);
        first + WithStart(r, k);
        first + (mine + WithStart(s[1..], k));
        mine + (first + WithStart(s[1..], k));
      }
    }
  }

  /** The sort orders by start, and keeps exactly the same events. */
  lemma {:induction false} SortByStartSorts(s: seq<CalendarEvent>)
    ensures SortedByStart(SortByStart(s))
    ensures multiset(SortByStart(s)) == multiset(s)
  {
    if s != [] {
      SortByStartSorts(s[1..]);
      InsertByStartSorted(s[0], SortByStart(s[1..]));
      assert s == [s[0]] + s[1..];
    }
  }

  /** Stability: events with the same start keep their relative order. */
  lemma {:induction false} SortByStartStable(s: seq<CalendarEvent>, k: int)
    ensures WithStart(SortByStart(s), k) == WithStart(s, k)
  {
    if s != [] {
      SortByStartStable(s[1..], k);
      InsertByStartWithStart(s[0], SortByStart(s[1..]), k);
    }
  }

  // ---------------------------------------------------------------------------
  // fetch_events
  // ---------------------------------------------------------------------------

  /** The body of the `try` for one calendar: the events it appends. */
  method CalendarEvents(cfg: CalendarConfig, outcome: FetchOutcome,
                        convert: (Json.Value, string, string) -> Option<CalendarEvent>)
    returns (added: seq<CalendarEvent>)
    ensures added == Contribution(outcome, cfg, convert)
  {
    added := [];
    if outcome.Failed? {
      return;
    }
    var items := outcome.items.GetOr([]);
    ghost var goal := Converted(items, cfg, convert);
    assert goal == Contribution(outcome, cfg, convert);
    var j := 0;
    assert items[j..] == items;
    while j < |items|
      invariant 0 <= j <= |items|
      invariant goal == added + Converted(items[j..], cfg, convert)
    {
      var event := convert(items[j], cfg.id, cfg.name);
      if event.None? {
        assert Converted(items[j..], cfg, convert) == [] by {
          ConvertedFrom(items, j, cfg, convert);
        }
        assert goal == added + [];
        return;
      }
      assert Converted(items[j..], cfg, convert) == [event.value] + Converted(items[j + 1..], cfg, convert) by {
        ConvertedFrom(items, j, cfg, convert);
      }
      added := added + [event.value];
      j := j + 1;
    }
    assert items[j..] == [];
    assert goal == added + [];
  }

  /**
   * `fetch_events` for the current date (`year`, `month` of `datetime.now()`),
   * with `updated` the clock string it stamps the result with.
   */
  method FetchEvents(service: GoogleCalendarService, year: int, month: int, updated: string,
                     fetch: (string, Window) -> FetchOutcome,
                     convert: (Json.Value, string, string) -> Option<CalendarEvent>)
    returns (r: FetchResult)
    requires MinYear <= year <= MaxYear && 1 <= month <= 12
    ensures !service.initialized ==> r == Done(CalendarData([], updated))
    ensures service.initialized && (year, month) == (MaxYear, 12) ==> r == DateOverflow
    ensures service.initialized && (year, month) != (MaxYear, 12) ==>
              var w := Window(GridStart(year, month), GridStart(year, month) + GridDays);
              r == Done(CalendarData(SortByStart(Collected(service.calendarConfigs, w, fetch, convert)), updated))
  {
    if !service.initialized {
      return Done(CalendarData([], updated));
    }
    var window := VisibleWindow(year, month);
    if window.None? {
      return DateOverflow;
    }
    var w := window.value;
    var configs := service.calendarConfigs;
    var allEvents: seq<CalendarEvent> := [];
    var i := 0;
    while i < |configs|
      invariant 0 <= i <= |configs|
      invariant allEvents == Collected(configs[..i], w, fetch, convert)
    {
      var cfg := configs[i];
      var outcome := fetch(cfg.id, w);
      var added := CalendarEvents(cfg, outcome, convert);
      allEvents := allEvents + added;
      assert configs[..i + 1] == configs[..i] + [cfg];
      CollectedAppend(configs[..i], cfg, w, fetch, convert);
      i := i + 1;
    }
    assert configs[..i] == configs;
    allEvents := SortByStart(allEvents);
    return Done(CalendarData(allEvents, updated));
  }

  /**
   * The returned events are sorted by start and are exactly the events the
   * successful calendars produced: each one comes from some calendar's
   * contribution, and each contribution's events are all there.
   */
  lemma FetchedEventsAreTheContributions(configs: seq<CalendarConfig>, w: Window,
                                         fetch: (string, Window) -> FetchOutcome,
                                         convert: (Json.Value, string, string) -> Option<CalendarEvent>,
                                         e: CalendarEvent)
    ensures SortedByStart(SortByStart(Collected(configs, w, fetch, convert)))
    ensures e in SortByStart(Collected(configs, w, fetch, convert)) <==>
            exists i :: 0 <= i < |configs| && e in Contribution(fetch(configs[i].id, w), configs[i], convert)
  {
    var all := Collected(configs, w, fetch, convert);
    SortByStartSorts(all);
    assert e in SortByStart(all) <==> e in multiset(SortByStart(all));
    CollectedMembership(configs, w, fetch, convert, e);
  }
}
