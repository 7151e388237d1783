/**
 * The two read queries over stored matches: one month of the calendar, and
 * the latest finished matches. Each is a filter over the rows, an ordering by
 * the match instant, and (for the recent list) a limit. Instants are
 * milliseconds since the epoch; local time is a fixed offset from UTC.
 */
module MatchesService {
  import opened Wrappers
  import opened SyncDomain
  import opened Sorting
  import opened Filtering
  import opened CivilCalendar
  import opened TeamsService

  const MsPerDay: int := 86400000

  /** The instant of wall-clock time `msOfDay` on local day number `day`, in a zone `offset` ms ahead of UTC. */
  function LocalInstant(day: int, msOfDay: int, offset: int): int {
    day * MsPerDay + msOfDay - offset
  }

  /** An inclusive range of instants, as `gte` / `lte` bounds. */
  datatype Window = Window(start: int, end: int) {
    predicate Holds(at: int) {
      start <= at <= end
    }
  }

  /** `new Date(year, month - 1, 1)` through `new Date(year, month, 0, 23, 59, 59)`. */
  function CalendarWindow(year: int, month: int, offset: int): Window {
    var y := ConstructorYear(year);
    Window(LocalInstant(MakeDay(y, month - 1, 1), 0, offset),
           LocalInstant(MakeDay(y, month, 0), 23 * 3600000 + 59 * 60000 + 59 * 1000, offset))
  }

  /**
   * For a month from 1 to 12 the window opens at 00:00 on day 1 and closes at
   * 23:59:59 on the month's last day by the leap rule, one second short of the
   * month's full length.
   */
  lemma CalendarWindowSpansMonth(year: int, month: int, offset: int)
    requires 1 <= month <= 12
    ensures var y := ConstructorYear(year);
      var w := CalendarWindow(year, month, offset);
      && w.start == LocalInstant(MakeDay(y, month - 1, 1), 0, offset)
      && w.end == LocalInstant(MakeDay(y, month - 1, DaysInMonth(y, month)), 86399000, offset)
      && w.end - w.start == DaysInMonth(y, month) * MsPerDay - 1000
  {
    var y := ConstructorYear(year);
    LastDayOfMonth(y, month);
    DayOffset(y, month - 1, DaysInMonth(y, month));
  }

  // ---------------------------------------------------------------------------
  // The follow filter
  // ---------------------------------------------------------------------------

  /** `memberUid && {...}`: the filter applies only for a present, non-empty member id. */
  predicate FollowedSide(follows: seq<Follow>, member: string, teamId: Option<string>) {
    teamId.Some? && Following(follows, member, teamId.value)
  }

  /** Some team of the league is followed by the member. */
  predicate FollowsLeague(teams: seq<Team>, follows: seq<Follow>, member: string, leagueId: string) {
    exists k :: 0 <= k < |teams| && teams[k].leagueId == leagueId && Following(follows, member, teams[k].id)
  }

  /** The calendar's follow condition: either side followed, or an event row of a followed league. */
  predicate CalendarFollowed(teams: seq<Team>, follows: seq<Follow>, member: string, m: Match) {
    || FollowedSide(follows, member, m.homeTeamId)
    || FollowedSide(follows, member, m.awayTeamId)
    || (m.homeTeamId.None? && m.awayTeamId.None? && FollowsLeague(teams, follows, member, m.leagueId))
  }

  predicate CalendarKeeps(teams: seq<Team>, follows: seq<Follow>, w: Window, memberUid: Option<string>, m: Match) {
    w.Holds(m.matchAt) && (!Truthy(memberUid) || CalendarFollowed(teams, follows, memberUid.value, m))
  }

  /** Earlier instants first; ties keep storage order. */
  predicate Earlier(a: Match, b: Match) {
    a.matchAt <= b.matchAt
  }

  /** Later instants first; ties keep storage order. */
  predicate Later(a: Match, b: Match) {
    a.matchAt >= b.matchAt
  }

  lemma InstantOrdersAreTotalPreorders()
    ensures IsTotalPreorder(Earlier) && IsTotalPreorder(Later)
  {
  }

  /** Sequences holding the same multiset hold the same elements. */
  lemma SameMembers(a: seq<Match>, b: seq<Match>)
    requires multiset(a) == multiset(b)
    ensures forall m :: m in a <==> m in b
  {
    assert forall m :: m in a <==> m in multiset(a);
    assert forall m :: m in b <==> m in multiset(b);
  }

  /**
   * `findCalendarMatches(year, month, memberUid?)`: the rows of the month's
   * window that pass the follow filter, each with its multiplicity, earliest
   * first. Without a member every row of the window is kept.
   */
  function FindCalendarMatches(rows: seq<Match>, teams: seq<Team>, follows: seq<Follow>,
                               year: int, month: int, offset: int, memberUid: Option<string>): (r: seq<Match>)
    ensures forall m :: m in r <==> m in rows && CalendarKeeps(teams, follows, CalendarWindow(year, month, offset), memberUid, m)
    ensures multiset(r) <= multiset(rows)
    ensures SortedBy(r, Earlier)
  {
    InstantOrdersAreTotalPreorders();
    var w := CalendarWindow(year, month, offset);
    var kept := Filter(rows, m => CalendarKeeps(teams, follows, w, memberUid, m));
    var r := Sort(kept, Earlier);
    SameMembers(r, kept);
    r
  }

  /** Without a member id (absent or empty) the calendar keeps exactly the rows of the window. */
  lemma CalendarWithoutMember(rows: seq<Match>, teams: seq<Team>, follows: seq<Follow>,
                              year: int, month: int, offset: int, memberUid: Option<string>, m: Match)
    requires !Truthy(memberUid)
    ensures m in FindCalendarMatches(rows, teams, follows, year, month, offset, memberUid)
        <==> m in rows && CalendarWindow(year, month, offset).Holds(m.matchAt)
  {
  }

  // ---------------------------------------------------------------------------
  // Recent results
  // ---------------------------------------------------------------------------

  const RecentLimit: nat := 20

  /** `days` defaults to 7; the window runs from that many days before `now` up to `now`. */
  function RecentWindow(now: int, days: Option<int>): Window {
    Window(now - days.GetOr(7) * MsPerDay, now)
  }

  predicate RecentKeeps(follows: seq<Follow>, w: Window, memberUid: Option<string>, m: Match) {
    && w.Holds(m.matchAt)
    && m.status == Finished
    && (!Truthy(memberUid)
        || FollowedSide(follows, memberUid.value, m.homeTeamId)
        || FollowedSide(follows, memberUid.value, m.awayTeamId))
  }

  function TakeFirst<T>(s: seq<T>, n: nat): (r: seq<T>)
    ensures |r| == if |s| < n then |s| else n
    ensures r == s[..|r|]
  {
    if |s| <= n then s else s[..n]
  }

  /**
   * `findRecentMatches(days, memberUid?)`: finished rows of the trailing window
   * that pass the follow filter, latest first, at most 20 of them, and no
   * qualifying row left out is later than one kept.
   */
  function FindRecentMatches(rows: seq<Match>, follows: seq<Follow>, now: int, days: Option<int>,
                             memberUid: Option<string>): (r: seq<Match>)
    ensures |r| <= RecentLimit
    ensures forall m :: m in r ==> m in rows && RecentKeeps(follows, RecentWindow(now, days), memberUid, m)
    ensures SortedBy(r, Later)
    ensures multiset(r) <= multiset(rows)
    ensures |r| == RecentLimit || forall m :: m in rows && RecentKeeps(follows, RecentWindow(now, days), memberUid, m) ==> m in r
    ensures var w := RecentWindow(now, days);
      forall m, x :: m in rows && RecentKeeps(follows, w, memberUid, m) && m !in r && x in r ==> x.matchAt >= m.matchAt
  {
    InstantOrdersAreTotalPreorders();
    var w := RecentWindow(now, days);
    var kept := Filter(rows, m => RecentKeeps(follows, w, memberUid, m));
    var sorted := Sort(kept, Later);
    var r := TakeFirst(sorted, RecentLimit);
    TopOfKept(rows, kept, sorted, r);
    r
  }

  /** The first 20 of the sorted qualifying rows are the latest of them. */
  lemma TopOfKept(rows: seq<Match>, kept: seq<Match>, sorted: seq<Match>, r: seq<Match>)
    requires multiset(kept) <= multiset(rows)
    requires multiset(sorted) == multiset(kept) && SortedBy(sorted, Later)
    requires |r| == (if |sorted| < RecentLimit then |sorted| else RecentLimit) && r == sorted[..|r|]
    ensures multiset(r) <= multiset(rows)
    ensures forall m :: m in r ==> m in kept
    ensures |r| == RecentLimit || forall m :: m in kept ==> m in r
    ensures forall m, x :: m in kept && m !in r && x in r ==> x.matchAt >= m.matchAt
  {
    TopOfSorted(sorted, r);
    SameMembers(sorted, kept);
    assert multiset(r) <= multiset(sorted) by {
      assert sorted == r + sorted[|r|..];
    }
  }

  /** An element of a latest-first list that is not in its prefix is no later than any element of the prefix. */
  lemma TopOfSorted(sorted: seq<Match>, r: seq<Match>)
    requires SortedBy(sorted, Later)
    requires |r| <= |sorted| && r == sorted[..|r|]
    ensures forall m, x :: m in sorted && m !in r && x in r ==> x.matchAt >= m.matchAt
  {
    forall m, x | m in sorted && m !in r && x in r ensures x.matchAt >= m.matchAt {
      var k :| 0 <= k < |sorted| && sorted[k] == m;
      var i :| 0 <= i < |r| && r[i] == x;
      assert Later(sorted[i], sorted[k]);
    }
  }

  /** For a member, the recent list has no event row: it has no league branch, unlike the calendar. */
  lemma RecentOmitsEventRows(rows: seq<Match>, follows: seq<Follow>, now: int, days: Option<int>,
                             memberUid: Option<string>, m: Match)
    requires Truthy(memberUid) && m.homeTeamId.None? && m.awayTeamId.None?
    ensures m !in FindRecentMatches(rows, follows, now, days, memberUid)
  {
  }
}
