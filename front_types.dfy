/**
 * The shapes the web client works with: the team of the follow list, the
 * team record of the teams API, and the calendar event the views render.
 */
module FrontTypes {
  import opened Wrappers
  import opened SyncDomain

  /** `a || fallback` for an optional string: the value when it is present and non-empty. */
  function OrElse(a: Option<string>, fallback: string): (r: string)
    ensures Truthy(a) ==> r == a.value
    ensures !Truthy(a) ==> r == fallback
  {
    if Truthy(a) then a.value else fallback
  }

  /** A team of the client's follow list (`Team` of the client's types). */
  datatype FrontTeam = FrontTeam(
    id: string,
    name: string,
    logo: string,
    logoUrl: Option<string>,
    mainColor: string,
    subColor: string,
    leagueId: Option<string>,
    sport: Option<string>)

  /** The league a team record of the teams API carries, when joined. */
  datatype LeagueInfo = LeagueInfo(id: string, name: string, category: Option<string>)

  /** A team record of the teams API (`TeamResponse`). */
  datatype TeamResponse = TeamResponse(
    id: string,
    name: string,
    logoUrl: Option<string>,
    primaryColor: Option<string>,
    secondaryColor: Option<string>,
    leagueId: Option<string>,
    leagues: Option<LeagueInfo>)

  /** A side of a calendar event, as the client normalises the joined team. */
  datatype EventTeam = EventTeam(
    id: string,
    name: string,
    logo: string,
    logoUrl: Option<string>,
    mainColor: string,
    subColor: string)

  datatype EventLeague = EventLeague(id: string, name: string, category: string)

  /** A race (an event with no two sides) or a two-sided match. */
  datatype EventKind = Race | TwoSided

  /** A calendar entry; `teamId` is the home team id. */
  datatype CalendarEvent = CalendarEvent(
    id: string,
    teamId: Option<string>,
    awayTeamId: Option<string>,
    homeTeamName: string,
    awayTeamName: string,
    homeTeamAbbr: Option<string>,
    awayTeamAbbr: Option<string>,
    date: string,
    time: string,
    kind: EventKind,
    score: Option<string>,
    homeTeam: Option<EventTeam>,
    awayTeam: Option<EventTeam>,
    league: Option<EventLeague>,
    venue: Option<string>)

  /** `e.league?.id`: absent when the event carries no league. */
  function LeagueIdOf(e: CalendarEvent): Option<string> {
    match e.league
    case Some(l) => Some(l.id)
    case None => None
  }
}
