/**
 * The calendar view's derived list: the events of followed teams (narrowed to
 * the selected main team when there is one), upcoming events first and soonest
 * first, then past or finished events most recent first; and the month
 * navigation. Reading a local date-time text into an instant is a parameter.
 */
module MainCalendar {
  import opened Wrappers
  import opened SyncDomain
  import opened Sorting
  import opened Filtering
  import opened CivilCalendar
  import opened FrontTypes

  // ---------------------------------------------------------------------------
  // Filtering
  // ---------------------------------------------------------------------------

  predicate HasTeamId(myTeams: seq<FrontTeam>, id: string) {
    exists k :: 0 <= k < |myTeams| && myTeams[k].id == id
  }

  /** Some followed team's league id equals the event's (both absent counts as equal). */
  predicate FollowsLeagueOf(myTeams: seq<FrontTeam>, e: CalendarEvent) {
    exists k :: 0 <= k < |myTeams| && myTeams[k].leagueId == LeagueIdOf(e)
  }

  /** A race is kept for its league; a two-sided match for its home team id or its away side. */
  predicate FollowKeeps(myTeams: seq<FrontTeam>, e: CalendarEvent) {
    if e.kind == Race then FollowsLeagueOf(myTeams, e)
    else
      || (e.teamId.Some? && HasTeamId(myTeams, e.teamId.value))
      || (e.awayTeam.Some? && HasTeamId(myTeams, e.awayTeam.value.id))
  }

  /** `myTeams.find(t => t.id === selectedTeamId)`. */
  function ActiveTeam(myTeams: seq<FrontTeam>, selected: string): (r: Option<FrontTeam>)
    ensures r.Some? ==> r.value in myTeams && r.value.id == selected
    ensures r.Some? ==> exists i :: 0 <= i < |myTeams| && myTeams[i] == r.value
                          && forall k :: 0 <= k < i ==> myTeams[k].id != selected
    ensures r.None? ==> !HasTeamId(myTeams, selected)
    decreases |myTeams|
  {
    if myTeams == [] then None
    else if myTeams[0].id == selected then Some(myTeams[0])
    else
      var r := ActiveTeam(myTeams[1..], selected);
      assert r.Some? ==> exists i :: 0 <= i < |myTeams| && myTeams[i] == r.value
                                     && forall k :: 0 <= k < i ==> myTeams[k].id != selected by {
        if r.Some? {
          var i :| 0 <= i < |myTeams[1..]| && myTeams[1..][i] == r.value
                   && forall k :: 0 <= k < i ==> myTeams[1..][k].id != selected;
          assert myTeams[i + 1] == r.value;
        }
      }
      r
  }

  /** With a main team selected: races of its league, or matches it plays in. */
  predicate SelectedKeeps(myTeams: seq<FrontTeam>, selected: string, e: CalendarEvent) {
    if e.kind == Race then
      (match ActiveTeam(myTeams, selected) case Some(t) => t.leagueId case None => None) == LeagueIdOf(e)
    else e.teamId == Some(selected) || (e.awayTeam.Some? && e.awayTeam.value.id == selected)
  }

  /**
   * The filter stages: nothing without followed teams, the follow filter, and
   * the main-team filter when a main team id is set.
   */
  function Shown(events: seq<CalendarEvent>, myTeams: seq<FrontTeam>, selected: Option<string>): (r: seq<CalendarEvent>)
    ensures |myTeams| == 0 ==> r == []
    ensures forall e :: e in r <==>
      && e in events && |myTeams| > 0 && FollowKeeps(myTeams, e)
      && (!Truthy(selected) || SelectedKeeps(myTeams, selected.value, e))
    ensures multiset(r) <= multiset(events)
  {
    var followed := if |myTeams| > 0 then Filter(events, e => FollowKeeps(myTeams, e)) else [];
    if Truthy(selected) then Filter(followed, e => SelectedKeeps(myTeams, selected.value, e)) else followed
  }

  // ---------------------------------------------------------------------------
  // Ordering
  // ---------------------------------------------------------------------------

  /** `new Date(`${date}T00:00:00`)`: the local midnight of the event's date, `None` when invalid. */
  function DayStart(clock: string -> Option<int>, e: CalendarEvent): Option<int> {
    clock(e.date + "T00:00:00")
  }

  /** `new Date(`${date}T${time}`).getTime() || 0`. */
  function Instant(clock: string -> Option<int>, e: CalendarEvent): int {
    match clock(e.date + "T" + e.time)
    case Some(t) => t
    case None => 0
  }

  /** Past: the date's midnight is before today's, or the event has a score. */
  predicate IsPast(clock: string -> Option<int>, today: int, e: CalendarEvent) {
    (DayStart(clock, e).Some? && DayStart(clock, e).value < today) || e.score.Some?
  }

  /** The sort comparator: negative when `a` goes first. */
  function Compare(clock: string -> Option<int>, today: int, a: CalendarEvent, b: CalendarEvent): int {
    var pastA := IsPast(clock, today, a);
    if pastA != IsPast(clock, today, b) then (if pastA then 1 else -1)
    else if !pastA then Instant(clock, a) - Instant(clock, b)
    else Instant(clock, b) - Instant(clock, a)
  }

  /** The comparator is consistent: "compares at most 0" is a total preorder. */
  lemma ComparatorIsTotalPreorder(le: (CalendarEvent, CalendarEvent) -> bool, clock: string -> Option<int>, today: int)
    requires forall a, b :: le(a, b) == (Compare(clock, today, a, b) <= 0)
    ensures IsTotalPreorder(le)
  {
    forall a, b, c | le(a, b) && le(b, c) ensures le(a, c) {
      assert Compare(clock, today, a, b) <= 0 && Compare(clock, today, b, c) <= 0;
    }
  }

  /** The order the comparator sorts by: `a` may come before `b` when the comparator gives at most 0. */
  function Before(clock: string -> Option<int>, today: int): (CalendarEvent, CalendarEvent) -> bool {
    (a: CalendarEvent, b: CalendarEvent) => Compare(clock, today, a, b) <= 0
  }

  /**
   * `displayedEvents`: a reordering of the shown events, each with its
   * multiplicity, sorted on a copy by the comparator: every upcoming event
   * before every past one, upcoming soonest first, past most recent first.
   */
  function DisplayedEvents(events: seq<CalendarEvent>, myTeams: seq<FrontTeam>, selected: Option<string>,
                           clock: string -> Option<int>, today: int): (r: seq<CalendarEvent>)
    ensures multiset(r) == multiset(Shown(events, myTeams, selected))
    ensures forall i, j :: 0 <= i < j < |r| ==> Compare(clock, today, r[i], r[j]) <= 0
    ensures forall i, j :: 0 <= i < j < |r| ==> !(IsPast(clock, today, r[i]) && !IsPast(clock, today, r[j]))
    ensures forall i, j :: 0 <= i < j < |r| ==>
      (!IsPast(clock, today, r[i]) && !IsPast(clock, today, r[j]) ==> Instant(clock, r[i]) <= Instant(clock, r[j]))
    ensures forall i, j :: 0 <= i < j < |r| ==>
      (IsPast(clock, today, r[i]) && IsPast(clock, today, r[j]) ==> Instant(clock, r[i]) >= Instant(clock, r[j]))
  {
    var le := Before(clock, today);
    ComparatorIsTotalPreorder(le, clock, today);
    Sort(Shown(events, myTeams, selected), le)
  }

  /**
   * The copy is sorted stably: events the comparator ranks level with `x`
   * (on the same side of today, at the same instant) keep the order the
   * shown list gave them.
   */
  lemma DisplayedKeepsTies(events: seq<CalendarEvent>, myTeams: seq<FrontTeam>, selected: Option<string>,
                           clock: string -> Option<int>, today: int, x: CalendarEvent)
    ensures Equivalents(DisplayedEvents(events, myTeams, selected, clock, today), x, Before(clock, today))
         == Equivalents(Shown(events, myTeams, selected), x, Before(clock, today))
  {
    var le := Before(clock, today);
    ComparatorIsTotalPreorder(le, clock, today);
    SortStable(Shown(events, myTeams, selected), le, x);
  }

  /** An event is displayed iff it passes both filters; with no followed team nothing is. */
  lemma DisplayedIffShown(events: seq<CalendarEvent>, myTeams: seq<FrontTeam>, selected: Option<string>,
                          clock: string -> Option<int>, today: int, e: CalendarEvent)
    ensures e in DisplayedEvents(events, myTeams, selected, clock, today) <==>
      && e in events && |myTeams| > 0 && FollowKeeps(myTeams, e)
      && (!Truthy(selected) || SelectedKeeps(myTeams, selected.value, e))
  {
    var r := DisplayedEvents(events, myTeams, selected, clock, today);
    var shown := Shown(events, myTeams, selected);
    assert e in r <==> e in multiset(r);
    assert e in shown <==> e in multiset(shown);
  }

  // ---------------------------------------------------------------------------
  // Month navigation
  // ---------------------------------------------------------------------------

  /** A local calendar date: full year, month index 0..11, day of the month. */
  datatype LocalDate = LocalDate(year: int, month: int, day: int)

  function DayNumber(d: LocalDate): int {
    MakeDay(d.year, d.month, d.day)
  }

  /** `new Date(year, monthIndex, 1)` read back as a date: the month index carries into the year. */
  function MonthStart(year: int, monthIndex: int): (r: LocalDate)
    ensures 0 <= r.month < 12 && r.day == 1
  {
    LocalDate(ConstructorYear(year) + monthIndex / 12, monthIndex % 12, 1)
  }

  function NextMonth(d: LocalDate): LocalDate {
    MonthStart(d.year, d.month + 1)
  }

  function PrevMonth(d: LocalDate): LocalDate {
    MonthStart(d.year, d.month - 1)
  }

  /** The date read back is the day the constructor denotes. */
  lemma MonthStartIsConstructorDay(year: int, monthIndex: int)
    ensures DayNumber(MonthStart(year, monthIndex)) == MakeDay(ConstructorYear(year), monthIndex, 1)
  {
    var r := MonthStart(year, monthIndex);
    assert r.month / 12 == 0 && r.month % 12 == r.month;
  }

  /** `nextMonth` lands on day 1 of the following month, as many days on as the current month is long. */
  lemma NextMonthIsMonthLater(d: LocalDate)
    requires 0 <= d.month < 12 && 100 < d.year
    ensures var n := NextMonth(d);
      && n.day == 1
      && (if d.month == 11 then n.year == d.year + 1 && n.month == 0 else n.year == d.year && n.month == d.month + 1)
      && DayNumber(n) == MakeDay(d.year, d.month, 1) + DaysInMonth(d.year, d.month + 1)
  {
    MonthStartIsConstructorDay(d.year, d.month + 1);
    NextMonthFollows(d.year, d.month);
    DayOffset(d.year, d.month, DaysInMonth(d.year, d.month + 1));
  }

  /** `prevMonth` lands on day 1 of the preceding month. */
  lemma PrevMonthIsMonthEarlier(d: LocalDate)
    requires 0 <= d.month < 12 && 100 < d.year
    ensures var p := PrevMonth(d);
      && p.day == 1
      && (if d.month == 0 then p.year == d.year - 1 && p.month == 11 else p.year == d.year && p.month == d.month - 1)
  {
  }

  /** Going forward then back, or back then forward, returns to day 1 of the same month. */
  lemma MonthStepsUndo(d: LocalDate)
    requires 0 <= d.month < 12 && 101 < d.year
    ensures PrevMonth(NextMonth(d)) == LocalDate(d.year, d.month, 1)
    ensures NextMonth(PrevMonth(d)) == LocalDate(d.year, d.month, 1)
  {
    NextMonthIsMonthLater(d);
    PrevMonthIsMonthEarlier(d);
    NextMonthIsMonthLater(PrevMonth(d));
    PrevMonthIsMonthEarlier(NextMonth(d));
  }
}
