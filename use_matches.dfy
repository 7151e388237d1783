/**
 * The client's transform of the calendar API's match rows into calendar
 * events: the event kind, the score text, the date and time texts, and the
 * normalised sides. Rendering an instant in the browser's local time zone is
 * a parameter.
 */
module UseMatches {
  import opened Wrappers
  import opened Text
  import opened SyncDomain
  import opened FrontTypes

  /** A team joined onto a match row; the client accepts both the column names and the client names. */
  datatype ApiTeam = ApiTeam(
    id: string,
    name: string,
    abbreviation: Option<string>,
    logo: Option<string>,
    logoUrlColumn: Option<string>,
    logoUrl: Option<string>,
    primaryColor: Option<string>,
    mainColor: Option<string>,
    secondaryColor: Option<string>,
    subColor: Option<string>)

  /** A match row as the calendar API sends it; `matchAt` is the instant's text. */
  datatype ApiMatch = ApiMatch(
    id: string,
    homeTeamId: Option<string>,
    awayTeamId: Option<string>,
    homeTeamName: string,
    awayTeamName: string,
    matchAt: string,
    status: string,
    homeScore: int,
    awayScore: int,
    homeTeam: Option<ApiTeam>,
    awayTeam: Option<ApiTeam>,
    leagues: Option<EventLeague>,
    venue: Option<string>)

  /**
   * The logo of a side without one: the seven characters the source file
   * holds, which are the shield emoji's UTF-8 bytes read as Mac Roman.
   */
  const DefaultLogo: string := "\U{F8FF}\U{FC}\U{F5}\U{B0}\U{D4}\U{220F}\U{E8}"

  /**
   * `normalizeTeam`: no team gives no side; otherwise the logo, logo URL and
   * colours fall back from the column name to the client name to a default.
   */
  function NormalizeTeam(team: Option<ApiTeam>): (r: Option<EventTeam>)
    ensures r.None? <==> team.None?
    ensures r.Some? ==> r.value.id == team.value.id && r.value.name == team.value.name
    ensures r.Some? ==> r.value.logo != "" && r.value.mainColor != "" && r.value.subColor != ""
    ensures r.Some? ==> r.value.logo == (if Truthy(team.value.logo) then team.value.logo.value else DefaultLogo)
    ensures r.Some? && !Truthy(team.value.primaryColor) && !Truthy(team.value.mainColor) ==> r.value.mainColor == "#FFFFFF"
    ensures r.Some? && !Truthy(team.value.secondaryColor) && !Truthy(team.value.subColor) ==> r.value.subColor == "#000000"
  {
    match team
    case None => None
    case Some(t) =>
      Some(EventTeam(
        t.id, t.name,
        OrElse(t.logo, DefaultLogo),
        if Truthy(t.logoUrlColumn) then t.logoUrlColumn else t.logoUrl,
        OrElse(t.primaryColor, OrElse(t.mainColor, "#FFFFFF")),
        OrElse(t.secondaryColor, OrElse(t.subColor, "#000000"))))
  }

  /** An instant text carries a zone when it contains `Z` or `+`. */
  predicate HasZone(matchAt: string) {
    Contains(matchAt, "Z") || Contains(matchAt, "+")
  }

  /**
   * The event's date and time texts. A zoned instant the browser can read is
   * rendered in local time by `localClock` (which gives `None` for an invalid
   * date); any other text is split at `T`: the date is the first piece, the
   * time the first five characters of the second, or `00:00` without one.
   */
  function DateAndTime(matchAt: string, localClock: string -> Option<(string, string)>): (string, string) {
    if HasZone(matchAt) && localClock(matchAt).Some? then localClock(matchAt).value
    else
      var parts := SplitOn(matchAt, 'T');
      (parts[0], if |parts| > 1 && parts[1] != "" then Take(parts[1], 5) else "00:00")
  }

  /** The score text of a finished match: the two scores around a colon. */
  function ScoreText(status: string, homeScore: int, awayScore: int): Option<string> {
    if status == "finished" then Some(IntToString(homeScore) + ":" + IntToString(awayScore)) else None
  }

  /** The transform of one match row. */
  function ToEvent(m: ApiMatch, localClock: string -> Option<(string, string)>): CalendarEvent {
    var (date, time) := DateAndTime(m.matchAt, localClock);
    CalendarEvent(
      m.id, m.homeTeamId, m.awayTeamId, m.homeTeamName, m.awayTeamName,
      if m.homeTeam.Some? then m.homeTeam.value.abbreviation else None,
      if m.awayTeam.Some? then m.awayTeam.value.abbreviation else None,
      date, time,
      if !Truthy(m.homeTeamId) && !Truthy(m.awayTeamId) then Race else TwoSided,
      ScoreText(m.status, m.homeScore, m.awayScore),
      NormalizeTeam(m.homeTeam), NormalizeTeam(m.awayTeam),
      m.leagues, m.venue)
  }

  /** `select`: one event per row, in the rows' order, each built from its own row alone. */
  function Select(rows: seq<ApiMatch>, localClock: string -> Option<(string, string)>): (r: seq<CalendarEvent>)
    ensures |r| == |rows|
    ensures forall i :: 0 <= i < |rows| ==> r[i] == ToEvent(rows[i], localClock)
  {
    seq(|rows|, i requires 0 <= i < |rows| => ToEvent(rows[i], localClock))
  }

  /**
   * An event is a race iff neither team id is set; the team ids, names and
   * league are the row's own.
   */
  lemma EventKindAndIds(m: ApiMatch, localClock: string -> Option<(string, string)>)
    ensures var e := ToEvent(m, localClock);
      && (e.kind == Race <==> !Truthy(m.homeTeamId) && !Truthy(m.awayTeamId))
      && e.teamId == m.homeTeamId && e.awayTeamId == m.awayTeamId
      && e.homeTeamName == m.homeTeamName && e.awayTeamName == m.awayTeamName
      && LeagueIdOf(e) == (if m.leagues.Some? then Some(m.leagues.value.id) else None)
      && (e.homeTeam.Some? <==> m.homeTeam.Some?) && (e.awayTeam.Some? <==> m.awayTeam.Some?)
  {
  }

  lemma NoColonInNumber(i: int)
    ensures ':' !in IntToString(i)
  {
    var r := IntToString(i);
    var digits := if i < 0 then NatToString(-i) else NatToString(i);
    assert r == (if i < 0 then "-" else "") + digits;
    assert forall k :: 0 <= k < |digits| ==> digits[k] != ':';
  }

  /**
   * The score is set iff the match is finished, and then it reads back: split
   * at the colon, the two pieces parse to the home and the away score.
   */
  lemma ScoreReadsBack(m: ApiMatch, localClock: string -> Option<(string, string)>)
    ensures var e := ToEvent(m, localClock);
      && (e.score.Some? <==> m.status == "finished")
      && (e.score.Some? ==>
            var parts := SplitOn(e.score.value, ':');
            |parts| == 2 && ParseInt(parts[0]) == Some(m.homeScore) && ParseInt(parts[1]) == Some(m.awayScore))
  {
    if m.status == "finished" {
      var h := IntToString(m.homeScore);
      var a := IntToString(m.awayScore);
      NoColonInNumber(m.homeScore);
      NoColonInNumber(m.awayScore);
      SplitAfterPiece(h, a, ':');
      assert SplitOn(a, ':') == [a];
      assert h + ":" + a == h + [':'] + a;
      ParseIntRoundTrip(m.homeScore);
      ParseIntRoundTrip(m.awayScore);
    }
  }

  /**
   * For an instant text without a zone the date is the text before the first
   * `T` (all of it when there is none), and the time is `00:00` when no text
   * follows that `T`, otherwise up to five characters of what follows, up to
   * the next `T`.
   */
  lemma LocalTextSplitsAtT(matchAt: string, localClock: string -> Option<(string, string)>)
    requires !HasZone(matchAt)
    ensures var (date, time) := DateAndTime(matchAt, localClock);
      && IsPrefix(date, matchAt) && 'T' !in date
      && (date == matchAt || matchAt[|date|] == 'T')
      && ('T' !in matchAt ==> date == matchAt && time == "00:00")
      && (time == "00:00" || (1 <= |time| <= 5 && 'T' !in time && IsPrefix(time, matchAt[|date| + 1..])))
  {
    var parts := SplitOn(matchAt, 'T');
    if 'T' in matchAt {
      var i := FirstIndex(matchAt, 'T');
      assert parts == [matchAt[..i]] + SplitOn(matchAt[i + 1..], 'T');
      if |parts| > 1 && parts[1] != "" {
        var rest := matchAt[i + 1..];
        assert parts[1] == SplitOn(rest, 'T')[0];
      }
    } else {
      assert parts == [matchAt];
    }
  }
}
