/**
 * The KBO schedule client: the date window of one month's request, and the
 * mapping of the provider's game records onto the service's own shape. The
 * HTTP call itself is a parameter: the payload it returns for a window.
 */
module KboService {
  import opened Wrappers
  import opened Text
  import opened TwoDigitText
  import opened CivilCalendar

  // ---------------------------------------------------------------------------
  // The request window
  // ---------------------------------------------------------------------------

  /** The first day of the requested month, `year-month-01`. */
  function FromDate(year: string, month: string): string {
    year + "-" + month + "-" + "01"
  }

  /**
   * `new Date(parseInt(year), parseInt(month), 0).getDate()` as text, padded
   * to two digits; "NaN" when the year or the month does not read as a number.
   */
  function LastDayText(year: string, month: string): string {
    match (ParseInt(year), ParseInt(month))
    case (Some(y), Some(m)) => PadStart(IntToString(LastDayBefore(ConstructorYear(y), m)), 2, '0')
    case _ => "NaN"
  }

  /** The last day of the requested month, `year-month-dd`. */
  function ToDate(year: string, month: string): string {
    year + "-" + month + "-" + LastDayText(year, month)
  }

  /**
   * For a year and a month from 1 to 12 that read as numbers, the window runs
   * from day 01 to the month's length by the leap rule (of the year the Date
   * constructor takes, 1900 + y for a two-digit y), written as two digits:
   * both dates share the `year-month-` prefix, and the day of the second
   * starts with a digit above 0, so the first comes before it.
   */
  lemma MonthWindow(year: string, month: string, y: int, m: int)
    requires ParseInt(year) == Some(y) && ParseInt(month) == Some(m) && 1 <= m <= 12
    ensures FromDate(year, month) == year + "-" + month + "-" + "01"
    ensures ToDate(year, month) == year + "-" + month + "-" + TwoDigits(DaysInMonth(ConstructorYear(y), m))
    ensures TwoDigits(DaysInMonth(ConstructorYear(y), m))[0] > '0'
  {
    LastDayIsMonthLength(year, month, y, m);
    LateDayLeadingDigit(DaysInMonth(ConstructorYear(y), m));
  }

  /** The padded day text of a parsed month from 1 to 12 is its length, in two digits. */
  lemma LastDayIsMonthLength(year: string, month: string, y: int, m: int)
    requires ParseInt(year) == Some(y) && ParseInt(month) == Some(m) && 1 <= m <= 12
    ensures LastDayText(year, month) == TwoDigits(DaysInMonth(ConstructorYear(y), m))
  {
    var last := DaysInMonth(ConstructorYear(y), m);
    LastDayOfMonth(ConstructorYear(y), m);
    assert IntToString(last) == NatToString(last);
    PadTwoDigits(last);
    ParsedLastDay(year, month, y, m);
  }

  lemma ParsedLastDay(year: string, month: string, y: int, m: int)
    requires ParseInt(year) == Some(y) && ParseInt(month) == Some(m)
    ensures LastDayText(year, month) == PadStart(IntToString(LastDayBefore(ConstructorYear(y), m)), 2, '0')
  {
  }

  lemma LateDayLeadingDigit(d: nat)
    requires 28 <= d <= 31
    ensures TwoDigits(d)[0] > '0'
  {
  }

  /** The query a month's request carries (its fixed parameters are not modelled). */
  datatype NaverRequest = NaverRequest(fromDate: string, toDate: string)

  // ---------------------------------------------------------------------------
  // The game records
  // ---------------------------------------------------------------------------

  /** A game as the provider sends it; a missing name is `None`, a missing venue or flag `Undefined`. */
  datatype NaverGame = NaverGame(
    gameId: string,
    gameDate: string,
    gameDateTime: string,
    statusInfo: string,
    statusCode: string,
    homeTeamCode: string,
    homeTeamName: Option<string>,
    homeTeamScore: int,
    homeTeamEmblemUrl: string,
    awayTeamCode: string,
    awayTeamName: Option<string>,
    awayTeamScore: int,
    awayTeamEmblemUrl: string,
    stadium: Js<string>,
    cancel: Js<bool>,
    winner: string)

  datatype KboSide = KboSide(code: string, name: Option<string>, score: int, emblem: string)

  /** A game in the service's own shape. */
  datatype KboGame = KboGame(
    gameId: string,
    date: string,
    dateTime: string,
    status: string,
    statusCode: string,
    homeTeam: KboSide,
    awayTeam: KboSide,
    venue: Js<string>,
    isCancel: bool,
    winner: string)

  /** `game.cancel || false` for a flag that is a boolean when present. */
  function CancelFlag(cancel: Js<bool>): bool {
    match cancel
    case Defined(b) => b
    case _ => false
  }

  function MapGame(g: NaverGame): KboGame {
    KboGame(g.gameId, g.gameDate, g.gameDateTime, g.statusInfo, g.statusCode,
            KboSide(g.homeTeamCode, g.homeTeamName, g.homeTeamScore, g.homeTeamEmblemUrl),
            KboSide(g.awayTeamCode, g.awayTeamName, g.awayTeamScore, g.awayTeamEmblemUrl),
            g.stadium, CancelFlag(g.cancel), g.winner)
  }

  /** A game is cancelled only when the provider says so; each side is built from that side's fields. */
  lemma MapGameFields(g: NaverGame)
    ensures var r := MapGame(g);
      && (r.isCancel <==> g.cancel == Defined(true))
      && r.homeTeam.name == g.homeTeamName && r.homeTeam.score == g.homeTeamScore
      && r.homeTeam.code == g.homeTeamCode
      && r.awayTeam.name == g.awayTeamName && r.awayTeam.score == g.awayTeamScore
      && r.awayTeam.code == g.awayTeamCode
      && r.gameId == g.gameId && r.venue == g.stadium
  {
  }

  /** `games.map(...)`: element `i` of the result is built from element `i` of the input alone. */
  function MapGames(games: seq<NaverGame>): (r: seq<KboGame>)
    ensures |r| == |games|
    ensures forall i :: 0 <= i < |games| ==> r[i] == MapGame(games[i])
  {
    seq(|games|, i requires 0 <= i < |games| => MapGame(games[i]))
  }

  /** The mapping keeps the order: mapping two lists one after the other is mapping their concatenation. */
  lemma MapGamesConcat(a: seq<NaverGame>, b: seq<NaverGame>)
    ensures MapGames(a + b) == MapGames(a) + MapGames(b)
  {
    assert forall i :: 0 <= i < |a + b| ==> MapGames(a + b)[i] == (MapGames(a) + MapGames(b))[i];
  }

  // ---------------------------------------------------------------------------
  // One month's schedule
  // ---------------------------------------------------------------------------

  datatype KboSchedule = KboSchedule(year: string, month: string, category: string, games: seq<KboGame>)

  /**
   * `getSchedule`: the request for the month's window; a failed request is
   * passed on to the caller, a missing `result.games` counts as no games.
   */
  function GetSchedule(year: string, month: string, naver: NaverRequest -> Fetch<seq<NaverGame>>): Fetch<KboSchedule> {
    match naver(NaverRequest(FromDate(year, month), ToDate(year, month)))
    case FetchFailed(e) => FetchFailed(e)
    case Fetched(games) => Fetched(KboSchedule(year, month, "KBO", MapGames(games)))
  }

  /** The schedule asks for exactly the month's window and carries every game of the answer, in order. */
  lemma GetScheduleAsks(year: string, month: string, naver: NaverRequest -> Fetch<seq<NaverGame>>)
    ensures var answer := naver(NaverRequest(FromDate(year, month), ToDate(year, month)));
      var r := GetSchedule(year, month, naver);
      && (r.FetchFailed? <==> answer.FetchFailed?)
      && (r.Fetched? ==> r.data.year == year && r.data.month == month && r.data.category == "KBO"
                         && |r.data.games| == |answer.data|
                         && forall i :: 0 <= i < |answer.data| ==> r.data.games[i] == MapGame(answer.data[i]))
  {
  }
}
