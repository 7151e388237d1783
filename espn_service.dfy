/**
 * The ESPN scoreboard client: the four sports and their URL paths, the query
 * parameters of a scoreboard and a season request, the season date windows,
 * and the per-sport result record of the all-sports fetch. The HTTP call is a
 * parameter: the payload (or the failure) it gives for a request.
 */
module EspnService {
  import opened Wrappers
  import opened Text
  import opened TwoDigitText
  import opened CivilCalendar

  // ---------------------------------------------------------------------------
  // Sports
  // ---------------------------------------------------------------------------

  datatype Sport = NFL | NHL | NBA | MLB

  /** The sport codes in the order the sports table declares them. */
  const Sports: seq<Sport> := [NFL, NHL, NBA, MLB]

  function SportPath(s: Sport): string {
    match s
    case NFL => "football"
    case NHL => "hockey"
    case NBA => "basketball"
    case MLB => "baseball"
  }

  function LeaguePath(s: Sport): string {
    match s
    case NFL => "nfl"
    case NHL => "nhl"
    case NBA => "nba"
    case MLB => "mlb"
  }

  function Code(s: Sport): string {
    match s
    case NFL => "NFL"
    case NHL => "NHL"
    case NBA => "NBA"
    case MLB => "MLB"
  }

  /** Every sport is listed once, and the codes tell the sports apart. */
  lemma SportsTable(s: Sport, t: Sport)
    ensures s in Sports
    ensures forall i, j :: 0 <= i < j < |Sports| ==> Sports[i] != Sports[j]
    ensures Code(s) == Code(t) ==> s == t
    ensures LeaguePath(s) == LeaguePath(t) ==> s == t
  {
    match s
    case NFL => assert Sports[0] == s;
    case NHL => assert Sports[1] == s;
    case NBA => assert Sports[2] == s;
    case MLB => assert Sports[3] == s;
  }

  const ApiUrl: string := "https://site.api.espn.com/apis/site/v2/sports"

  function ScoreboardUrl(s: Sport): string {
    ApiUrl + "/" + SportPath(s) + "/" + LeaguePath(s) + "/scoreboard"
  }

  // ---------------------------------------------------------------------------
  // Requests
  // ---------------------------------------------------------------------------

  /** A GET on a scoreboard URL with its query parameters; an absent parameter is `None`. */
  datatype Request = Request(url: string, limit: nat, season: Option<int>, dates: Option<string>)

  /** `getScoreboard`'s request: limit 100, and `dates` only for a non-empty date. */
  function ScoreboardRequest(s: Sport, date: Option<string>): (r: Request)
    ensures r.url == ScoreboardUrl(s) && r.limit == 100 && r.season == None
    ensures r.dates.Some? <==> date.Some? && date.value != ""
    ensures r.dates.Some? ==> r.dates == date
  {
    var dates := if date.Some? && date.value != "" then date else None;
    Request(ScoreboardUrl(s), 100, None, dates)
  }

  /** `getScoreboard`: the payload of the request; a failure is passed on to the caller. */
  function GetScoreboard<T>(s: Sport, date: Option<string>, http: Request -> Fetch<T>): Fetch<T> {
    http(ScoreboardRequest(s, date))
  }

  /** `season || new Date().getFullYear()`: a missing or zero season means the current year. */
  function SeasonYear(season: Option<int>, currentYear: int): (y: int)
    ensures season == None || season == Some(0) ==> y == currentYear
    ensures season.Some? && season.value != 0 ==> y == season.value
  {
    match season
    case Some(v) => if v != 0 then v else currentYear
    case None => currentYear
  }

  /** `getSeasonDateRange`: `YYYYMMDD-YYYYMMDD` for the sport's season starting in the season year. */
  function SeasonDateRange(s: Sport, season: Option<int>, currentYear: int): string {
    var year := SeasonYear(season, currentYear);
    if s == NFL then IntToString(year) + "0901" + "-" + (IntToString(year + 1) + "0215")
    else if s == NBA then IntToString(year) + "1001" + "-" + (IntToString(year + 1) + "0630")
    else if s == MLB then IntToString(year) + "0320" + "-" + (IntToString(year) + "1110")
    else IntToString(year) + "1001" + "-" + (IntToString(year + 1) + "0630")
  }

  /**
   * `getSeasonSchedule`'s request: limit 200, `season` only when it is truthy,
   * and the season's date range.
   */
  function SeasonRequest(s: Sport, season: Option<int>, currentYear: int): (r: Request)
    ensures r.url == ScoreboardUrl(s) && r.limit == 200
    ensures r.season.Some? <==> season.Some? && season.value != 0
    ensures r.season.Some? ==> r.season == season
    ensures r.dates == Some(SeasonDateRange(s, season, currentYear))
  {
    var kept := if season.Some? && season.value != 0 then season else None;
    Request(ScoreboardUrl(s), 200, kept, Some(SeasonDateRange(s, season, currentYear)))
  }

  // ---------------------------------------------------------------------------
  // Season windows
  // ---------------------------------------------------------------------------

  /**
   * A season as calendar dates: it opens on `startMonth`/`startDay` of the
   * season year and closes on `endMonth`/`endDay` of the year `yearsLater`
   * years after it.
   */
  datatype Window = Window(startMonth: nat, startDay: nat, endMonth: nat, endDay: nat, yearsLater: nat)

  /** The seasons as the leagues play them: NFL September to February, NBA and NHL October to June, MLB March to November. */
  function Season(s: Sport): (w: Window)
    ensures 1 <= w.startMonth <= 12 && 1 <= w.endMonth <= 12
    ensures 1 <= w.startDay <= 31 && 1 <= w.endDay <= 31
  {
    match s
    case NFL => Window(9, 1, 2, 15, 1)
    case NBA => Window(10, 1, 6, 30, 1)
    case NHL => Window(10, 1, 6, 30, 1)
    case MLB => Window(3, 20, 11, 10, 0)
  }

  /** `YYYYMMDD`: the year, then the month and the day in two digits each. */
  function Stamp(y: int, m: nat, d: nat): string
    requires m <= 99 && d <= 99
  {
    IntToString(y) + TwoDigits(m) + TwoDigits(d)
  }

  lemma NflDays()
    ensures TwoDigits(9) + TwoDigits(1) == "0901" && TwoDigits(2) + TwoDigits(15) == "0215"
  {
  }

  lemma WinterDays()
    ensures TwoDigits(10) + TwoDigits(1) == "1001" && TwoDigits(6) + TwoDigits(30) == "0630"
  {
  }

  lemma MlbDays()
    ensures TwoDigits(3) + TwoDigits(20) == "0320" && TwoDigits(11) + TwoDigits(10) == "1110"
  {
  }

  /** The range text is the season's first and last day, each written `YYYYMMDD`. */
  lemma RangeIsSeason(s: Sport, season: Option<int>, currentYear: int)
    ensures var y := SeasonYear(season, currentYear);
      var w := Season(s);
      SeasonDateRange(s, season, currentYear)
        == Stamp(y, w.startMonth, w.startDay) + "-" + Stamp(y + w.yearsLater, w.endMonth, w.endDay)
  {
    var y := SeasonYear(season, currentYear);
    match s
    case NFL => NflStamps(y);
    case NBA => WinterStamps(y);
    case NHL => WinterStamps(y);
    case MLB => MlbStamps(y);
  }

  lemma NflStamps(y: int)
    ensures Stamp(y, 9, 1) == IntToString(y) + "0901" && Stamp(y + 1, 2, 15) == IntToString(y + 1) + "0215"
  {
    NflDays();
    StampOf(y, 9, 1, "0901");
    StampOf(y + 1, 2, 15, "0215");
  }

  lemma WinterStamps(y: int)
    ensures Stamp(y, 10, 1) == IntToString(y) + "1001" && Stamp(y + 1, 6, 30) == IntToString(y + 1) + "0630"
  {
    WinterDays();
    StampOf(y, 10, 1, "1001");
    StampOf(y + 1, 6, 30, "0630");
  }

  lemma MlbStamps(y: int)
    ensures Stamp(y, 3, 20) == IntToString(y) + "0320" && Stamp(y, 11, 10) == IntToString(y) + "1110"
  {
    MlbDays();
    StampOf(y, 3, 20, "0320");
    StampOf(y, 11, 10, "1110");
  }

  lemma StampOf(y: int, m: nat, d: nat, text: string)
    requires m <= 99 && d <= 99 && TwoDigits(m) + TwoDigits(d) == text
    ensures Stamp(y, m, d) == IntToString(y) + text
  {
  }

  /** The window's first and last days are days of the calendar, and the first comes before the last. */
  predicate Ordered(w: Window, y: int) {
    && 1 <= w.startMonth <= 12 && 1 <= w.endMonth <= 12
    && 1 <= w.startDay <= DaysInMonth(y, w.startMonth)
    && 1 <= w.endDay <= DaysInMonth(y + w.yearsLater, w.endMonth)
    && MakeDay(y, w.startMonth - 1, w.startDay) < MakeDay(y + w.yearsLater, w.endMonth - 1, w.endDay)
  }

  /** Every season window closes after it opens, on the day numbers of the calendar. */
  lemma SeasonOpensBeforeItCloses(s: Sport, y: int)
    ensures Ordered(Season(s), y)
  {
    match s
    case NFL => NflOrdered(y);
    case NBA => WinterOrdered(y);
    case NHL => WinterOrdered(y);
    case MLB => MlbOrdered(y);
  }

  lemma NflOrdered(y: int)
    ensures Ordered(Window(9, 1, 2, 15, 1), y)
  {
    assert DaysBeforeMonth(y, 8) <= 244;
    assert MakeDay(y, 8, 1) == DayFromYear(y) + DaysBeforeMonth(y, 8);
    assert MakeDay(y + 1, 1, 15) == DayFromYear(y + 1) + 45;
    YearLength(y);
    assert DayFromYear(y + 1) >= DayFromYear(y) + 365;
  }

  lemma WinterOrdered(y: int)
    ensures Ordered(Window(10, 1, 6, 30, 1), y)
  {
    assert DaysBeforeMonth(y, 9) <= 274;
    assert MakeDay(y, 9, 1) == DayFromYear(y) + DaysBeforeMonth(y, 9);
    assert DaysBeforeMonth(y + 1, 5) >= 151;
    assert MakeDay(y + 1, 5, 30) == DayFromYear(y + 1) + DaysBeforeMonth(y + 1, 5) + 29;
    YearLength(y);
    assert DayFromYear(y + 1) >= DayFromYear(y) + 365;
  }

  lemma MlbOrdered(y: int)
    ensures Ordered(Window(3, 20, 11, 10, 0), y)
  {
    assert DaysBeforeMonth(y, 2) <= 60 && DaysBeforeMonth(y, 10) >= 304;
    assert MakeDay(y, 2, 20) == DayFromYear(y) + DaysBeforeMonth(y, 2) + 19;
    assert MakeDay(y, 10, 10) == DayFromYear(y) + DaysBeforeMonth(y, 10) + 9;
  }

  /** NFL: `{y}0901-{y+1}0215`. */
  lemma NflRange(season: Option<int>, currentYear: int)
    ensures var y := SeasonYear(season, currentYear);
      SeasonDateRange(NFL, season, currentYear) == IntToString(y) + "0901" + "-" + (IntToString(y + 1) + "0215")
  {
  }

  /** NBA and NHL (the branch for every other code) ask for the same window. */
  lemma NbaAndNhlAgree(season: Option<int>, currentYear: int)
    ensures SeasonDateRange(NBA, season, currentYear) == SeasonDateRange(NHL, season, currentYear)
  {
  }

  /**
   * Every window opens in the season year; MLB's closes in that year too,
   * every other one in the next year.
   */
  lemma ClosingYear(s: Sport, season: Option<int>, currentYear: int)
    ensures var y := SeasonYear(season, currentYear);
      var w := Season(s);
      var close := if s == MLB then y else y + 1;
      SeasonDateRange(s, season, currentYear)
        == Stamp(y, w.startMonth, w.startDay) + "-" + Stamp(close, w.endMonth, w.endDay)
  {
    RangeIsSeason(s, season, currentYear);
  }

  // ---------------------------------------------------------------------------
  // All sports at once
  // ---------------------------------------------------------------------------

  /** One sport's entry of the result record: the payload, or `{ error: message }`. */
  datatype Entry<T> = Board(data: T) | ErrorEntry(error: string)

  function EntryOf<T>(f: Fetch<T>): (e: Entry<T>)
    ensures e.ErrorEntry? <==> f.FetchFailed?
    ensures f.FetchFailed? ==> e.error == f.message
    ensures f.Fetched? ==> e.data == f.data
  {
    match f
    case Fetched(d) => Board(d)
    case FetchFailed(m) => ErrorEntry(m)
  }

  /** The result record of `getAllSportsSchedule`, key by key in the sports table's order. */
  function AllSportsSchedule<T>(http: Request -> Fetch<T>): seq<(Sport, Entry<T>)> {
    seq(|Sports|, i requires 0 <= i < |Sports| => (Sports[i], EntryOf(GetScoreboard(Sports[i], None, http))))
  }

  /**
   * `getAllSportsSchedule`: the scoreboard of each sport in turn, a failed
   * fetch stored as an error entry and the loop carrying on.
   */
  method GetAllSportsSchedule<T>(http: Request -> Fetch<T>) returns (results: seq<(Sport, Entry<T>)>)
    ensures results == AllSportsSchedule(http)
  {
    results := [];
    for i := 0 to |Sports|
      invariant |results| == i
      invariant forall k :: 0 <= k < i ==> results[k] == (Sports[k], EntryOf(GetScoreboard(Sports[k], None, http)))
    {
      var code := Sports[i];
      var board := GetScoreboard(code, None, http);
      match board {
        case Fetched(data) =>
          results := results + [(code, Board(data))];
        case FetchFailed(message) =>
          results := results + [(code, ErrorEntry(message))];
      }
    }
  }

  /**
   * The record has one entry per sport, in table order; an entry is an error
   * exactly when that sport's fetch failed, and never holds another sport's
   * payload.
   */
  lemma AllSportsEntries<T>(http: Request -> Fetch<T>)
    ensures var r := AllSportsSchedule(http);
      && |r| == 4
      && (forall i :: 0 <= i < |r| ==> r[i].0 == Sports[i])
      && (forall i :: 0 <= i < |r| ==>
            (r[i].1.ErrorEntry? <==> http(ScoreboardRequest(r[i].0, None)).FetchFailed?)
            && (r[i].1.Board? ==> r[i].1.data == http(ScoreboardRequest(r[i].0, None)).data))
  {
  }
}
