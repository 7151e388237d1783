/**
 * What each provider feed hands the sync loops: the payload shapes the sync
 * service reads, the league lookups, and the adapters that turn one payload
 * entry into the record given to the upsert — or into `Malformed` when the
 * service's field accesses would throw on it.
 */
module SyncSources {
  import opened Wrappers
  import opened Text
  import opened SyncDomain
  import opened StatusMapping
  import opened MatchUpsert
  import KboService
  import EspnService

  // ---------------------------------------------------------------------------
  // League lookups
  // ---------------------------------------------------------------------------

  /** `leagues.findFirst({ where: { name: { contains: needle } } })`, in table order. */
  function FirstLeagueNamed(leagues: seq<League>, needle: string): (r: Option<League>)
    ensures r.Some? ==> Contains(r.value.name, needle)
    ensures r.Some? ==> exists i :: 0 <= i < |leagues| && leagues[i] == r.value
                                   && forall j :: 0 <= j < i ==> !Contains(leagues[j].name, needle)
    ensures r.None? <==> forall i :: 0 <= i < |leagues| ==> !Contains(leagues[i].name, needle)
    decreases |leagues|
  {
    if leagues == [] then None
    else if Contains(leagues[0].name, needle) then Some(leagues[0])
    else
      var r := FirstLeagueNamed(leagues[1..], needle);
      assert forall j :: 1 <= j < |leagues| ==> leagues[j] == leagues[1..][j - 1];
      r
  }

  /** The stored league name for a football-data competition code: the four mapped codes, else the code itself. */
  function FootballLeagueName(code: string): (name: string)
    ensures code == "PL" ==> name == "EPL"
    ensures code == "BL1" ==> name == "Bundesliga"
    ensures code == "PD" ==> name == "La Liga"
    ensures code == "SA" ==> name == "Serie A"
    ensures code !in {"PL", "BL1", "PD", "SA"} ==> name == code
  {
    if code == "PL" then "EPL"
    else if code == "BL1" then "Bundesliga"
    else if code == "PD" then "La Liga"
    else if code == "SA" then "Serie A"
    else code
  }

  /** A stored league together with the competition code it was looked up by. */
  datatype CodedLeague = CodedLeague(league: League, code: string)

  /** `getLeagueByExternalId`: the first league whose name contains the mapped name, tagged with the code. */
  function LeagueByExternalId(leagues: seq<League>, code: string): (r: Option<CodedLeague>)
    ensures r.Some? ==> r.value.code == code && Contains(r.value.league.name, FootballLeagueName(code))
    ensures r.None? <==> FirstLeagueNamed(leagues, FootballLeagueName(code)).None?
  {
    match FirstLeagueNamed(leagues, FootballLeagueName(code))
    case None => None
    case Some(l) => Some(CodedLeague(l, code))
  }

  // ---------------------------------------------------------------------------
  // Shared helpers
  // ---------------------------------------------------------------------------

  /** `x ?? 0` for a number that may be null or undefined. */
  function OrZero(v: Js<int>): (r: int)
    ensures v.Defined? ==> r == v.value
    ensures !v.Defined? ==> r == 0
  {
    match v
    case Defined(x) => x
    case _ => 0
  }

  /** `parseInt(s) || 0`: the leading integer of the text, 0 when there is none. */
  function ParseIntOrZero(s: string): int {
    match ParseInt(s)
    case Some(v) => v
    case None => 0
  }

  /** A score rendered as text reads back as itself. */
  lemma ParseIntOrZeroRoundTrip(i: int)
    ensures ParseIntOrZero(IntToString(i)) == i
  {
    ParseIntRoundTrip(i);
  }

  /** A text with no leading integer counts as 0. */
  lemma ParseIntOrZeroDefault(s: string)
    requires ParseInt(s).None?
    ensures ParseIntOrZero(s) == 0
  {
  }

  /** `parseInt(score) || 0` for a score field that may be missing: `parseInt` of a missing value is NaN. */
  function ScoreOf(score: Js<string>): int {
    match score
    case Defined(s) => ParseIntOrZero(s)
    case _ => 0
  }

  lemma PrefixCancel(p: string, a: string, b: string)
    requires p + a == p + b
    ensures a == b
  {
    assert a == (p + a)[|p|..];
    assert b == (p + b)[|p|..];
  }

  // ---------------------------------------------------------------------------
  // football-data.org
  // ---------------------------------------------------------------------------

  datatype FbTeam = FbTeam(id: int, name: Option<string>)
  datatype FbScore = FbScore(home: Js<int>, away: Js<int>)

  /** A match as football-data sends it; `fullTime` is `score.fullTime`, `None` when either level is missing. */
  datatype FbMatch = FbMatch(
    id: int,
    homeTeam: Option<FbTeam>,
    awayTeam: Option<FbTeam>,
    utcDate: string,
    status: string,
    fullTime: Option<FbScore>,
    venue: Js<string>)

  /** One competition's payload; `matches` may be missing. */
  datatype FbBoard = FbBoard(matches: Option<seq<FbMatch>>)

  /** `(leagueData).matches || []`, where a failed competition is an `{ error }` object. */
  function FootballMatches(entry: Fetch<FbBoard>): seq<FbMatch> {
    match entry
    case Fetched(b) => b.matches.GetOr([])
    case FetchFailed(_) => []
  }

  /** The record `syncFootball` builds from a match, or `Malformed` when a team or the score is missing. */
  function FootballItem(m: FbMatch, league: CodedLeague, instant: string -> int): Item {
    if m.homeTeam.None? || m.awayTeam.None? || m.fullTime.None? then Malformed
    else
      Record(SyncRecord(
        "FB_" + IntToString(m.id), league.league.id, league.code,
        m.homeTeam.value.name, m.awayTeam.value.name,
        Some("FB_" + IntToString(m.homeTeam.value.id)), Some("FB_" + IntToString(m.awayTeam.value.id)),
        instant(m.utcDate), MapFootballStatus(m.status),
        OrZero(m.fullTime.value.home), OrZero(m.fullTime.value.away), m.venue))
  }

  /** What the record carries: provider-prefixed ids, the mapped status, a missing score as 0. */
  lemma FootballItemFields(m: FbMatch, league: CodedLeague, instant: string -> int)
    ensures var it := FootballItem(m, league, instant);
      && (it.Malformed? <==> m.homeTeam.None? || m.awayTeam.None? || m.fullTime.None?)
      && (it.Record? ==>
            && it.rec.externalId == "FB_" + IntToString(m.id)
            && it.rec.leagueId == league.league.id && it.rec.leagueCode == league.code
            && it.rec.homeName == m.homeTeam.value.name && it.rec.awayName == m.awayTeam.value.name
            && it.rec.homeExternalId == Some("FB_" + IntToString(m.homeTeam.value.id))
            && it.rec.awayExternalId == Some("FB_" + IntToString(m.awayTeam.value.id))
            && it.rec.status == MapFootballStatus(m.status)
            && (m.fullTime.value.home.Defined? ==> it.rec.homeScore == m.fullTime.value.home.value)
            && (!m.fullTime.value.home.Defined? ==> it.rec.homeScore == 0)
            && it.rec.venue == m.venue)
  {
  }

  function FootballItems(ms: seq<FbMatch>, league: CodedLeague, instant: string -> int): (r: seq<Item>)
    ensures |r| == |ms| && forall i :: 0 <= i < |ms| ==> r[i] == FootballItem(ms[i], league, instant)
  {
    seq(|ms|, i requires 0 <= i < |ms| => FootballItem(ms[i], league, instant))
  }

  /** Matches with distinct ids give records with distinct external ids. */
  lemma FootballIdsDistinct(ms: seq<FbMatch>, league: CodedLeague, instant: string -> int)
    requires forall i, j :: 0 <= i < j < |ms| ==> ms[i].id != ms[j].id
    ensures DistinctIds(FootballItems(ms, league, instant))
  {
    var items := FootballItems(ms, league, instant);
    forall i, j | 0 <= i < j < |items| && items[i].Record? && items[j].Record?
      ensures items[i].rec.externalId != items[j].rec.externalId
    {
      if items[i].rec.externalId == items[j].rec.externalId {
        PrefixCancel("FB_", IntToString(ms[i].id), IntToString(ms[j].id));
        IntToStringInjective(ms[i].id, ms[j].id);
      }
    }
  }

  // ---------------------------------------------------------------------------
  // PandaScore (LCK)
  // ---------------------------------------------------------------------------

  datatype PandaTeam = PandaTeam(id: int, name: Option<string>)

  /** An entry of `opponents`; its `opponent` object may be missing. */
  datatype PandaSlot = PandaSlot(opponent: Option<PandaTeam>)
  datatype PandaResult = PandaResult(score: Js<int>)
  datatype PandaLeague = PandaLeague(name: Js<string>)

  datatype PandaMatch = PandaMatch(
    id: int,
    opponents: seq<PandaSlot>,
    beginAt: string,
    status: string,
    results: seq<PandaResult>,
    league: Option<PandaLeague>)

  /** `opponents[i]?.opponent` throws when the slot exists but its opponent does not. */
  predicate SlotBroken(m: PandaMatch, i: nat) {
    i < |m.opponents| && m.opponents[i].opponent.None?
  }

  /** `opponents[i]?.opponent.name`: missing when the slot is. */
  function SlotName(m: PandaMatch, i: nat): Option<string>
    requires !SlotBroken(m, i)
  {
    if i < |m.opponents| then m.opponents[i].opponent.value.name else None
  }

  /** `opponents[i] ? PS_${opponent.id} : undefined`. */
  function SlotId(m: PandaMatch, i: nat): Option<string>
    requires !SlotBroken(m, i)
  {
    if i < |m.opponents| then Some("PS_" + IntToString(m.opponents[i].opponent.value.id)) else None
  }

  /** `results[i]?.score ?? 0`. */
  function ResultScore(m: PandaMatch, i: nat): int {
    if i < |m.results| then OrZero(m.results[i].score) else 0
  }

  /** The record `syncLck` builds; the venue is the league's name. */
  function LckItem(m: PandaMatch, league: League, instant: string -> int): Item {
    if SlotBroken(m, 0) || SlotBroken(m, 1) || m.league.None? then Malformed
    else
      Record(SyncRecord(
        "PS_" + IntToString(m.id), league.id, "LCK",
        SlotName(m, 0), SlotName(m, 1), SlotId(m, 0), SlotId(m, 1),
        instant(m.beginAt), MapPandaStatus(m.status),
        ResultScore(m, 0), ResultScore(m, 1), m.league.value.name))
  }

  /** A match with fewer than two opponents gives a record without both names, which the upsert skips. */
  lemma LckItemFields(m: PandaMatch, league: League, instant: string -> int)
    ensures var it := LckItem(m, league, instant);
      && (it.Malformed? <==> SlotBroken(m, 0) || SlotBroken(m, 1) || m.league.None?)
      && (it.Record? ==>
            && it.rec.externalId == "PS_" + IntToString(m.id)
            && it.rec.leagueCode == "LCK"
            && (|m.opponents| < 2 ==> !HasBothNames(it.rec))
            && (|m.opponents| < 1 ==> it.rec.homeExternalId.None?)
            && (|m.results| == 0 ==> it.rec.homeScore == 0 && it.rec.awayScore == 0)
            && it.rec.status == MapPandaStatus(m.status)
            && it.rec.venue == m.league.value.name)
  {
  }

  function LckItems(ms: seq<PandaMatch>, league: League, instant: string -> int): (r: seq<Item>)
    ensures |r| == |ms| && forall i :: 0 <= i < |ms| ==> r[i] == LckItem(ms[i], league, instant)
  {
    seq(|ms|, i requires 0 <= i < |ms| => LckItem(ms[i], league, instant))
  }

  lemma LckIdsDistinct(ms: seq<PandaMatch>, league: League, instant: string -> int)
    requires forall i, j :: 0 <= i < j < |ms| ==> ms[i].id != ms[j].id
    ensures DistinctIds(LckItems(ms, league, instant))
  {
    var items := LckItems(ms, league, instant);
    forall i, j | 0 <= i < j < |items| && items[i].Record? && items[j].Record?
      ensures items[i].rec.externalId != items[j].rec.externalId
    {
      if items[i].rec.externalId == items[j].rec.externalId {
        PrefixCancel("PS_", IntToString(ms[i].id), IntToString(ms[j].id));
        IntToStringInjective(ms[i].id, ms[j].id);
      }
    }
  }

  // ---------------------------------------------------------------------------
  // ESPN
  // ---------------------------------------------------------------------------

  datatype EspnTeam = EspnTeam(id: string, displayName: Option<string>)
  datatype Competitor = Competitor(homeAway: string, team: Option<EspnTeam>, score: Js<string>)
  datatype EspnVenue = EspnVenue(fullName: Js<string>)
  datatype Competition = Competition(competitors: seq<Competitor>, venue: Option<EspnVenue>)
  /** `statusName` is `e.status.type.name`; it is absent when the event has no `status` or no `status.type`. */
  datatype EspnEvent = EspnEvent(id: string, date: string, statusName: Option<string>, competitions: seq<Competition>)

  /** One sport's scoreboard payload; `events` may be missing. */
  datatype EspnBoard = EspnBoard(events: Option<seq<EspnEvent>>)

  /** `competitors.find(c => c.homeAway === side)`: the index of the first competitor on that side. */
  function FindSide(cs: seq<Competitor>, side: string): (r: Option<nat>)
    ensures r.Some? ==> r.value < |cs| && cs[r.value].homeAway == side
                        && forall k :: 0 <= k < r.value ==> cs[k].homeAway != side
    ensures r.None? ==> forall k :: 0 <= k < |cs| ==> cs[k].homeAway != side
    decreases |cs|
  {
    if cs == [] then None
    else if cs[0].homeAway == side then Some(0)
    else match FindSide(cs[1..], side)
      case None => None
      case Some(k) => Some(k + 1)
  }

  /**
   * The event's first competition, its home and away competitors, when all
   * exist and carry a team, and its status type; any of them missing throws.
   */
  predicate EspnWellFormed(e: EspnEvent) {
    && |e.competitions| > 0
    && FindSide(e.competitions[0].competitors, "home").Some?
    && FindSide(e.competitions[0].competitors, "away").Some?
    && e.competitions[0].competitors[FindSide(e.competitions[0].competitors, "home").value].team.Some?
    && e.competitions[0].competitors[FindSide(e.competitions[0].competitors, "away").value].team.Some?
    && e.statusName.Some?
  }

  /** `competition.venue?.fullName`. */
  function VenueName(c: Competition): Js<string> {
    match c.venue
    case None => Undefined
    case Some(v) => v.fullName
  }

  /** The record `syncEspn` builds for an event of the sport with code `code`. */
  function EspnItem(e: EspnEvent, code: string, league: League, instant: string -> int): Item {
    if !EspnWellFormed(e) then Malformed else Record(EspnRecord(e, code, league, instant))
  }

  /** The record of a well-formed event. */
  function EspnRecord(e: EspnEvent, code: string, league: League, instant: string -> int): SyncRecord
    requires EspnWellFormed(e)
  {
    var c := e.competitions[0];
    var home := c.competitors[FindSide(c.competitors, "home").value];
    var away := c.competitors[FindSide(c.competitors, "away").value];
    SyncRecord(
      "ESPN_" + e.id, league.id, code,
      home.team.value.displayName, away.team.value.displayName,
      Some("ESPN_" + code + "_" + home.team.value.id), Some("ESPN_" + code + "_" + away.team.value.id),
      instant(e.date), MapEspnStatus(e.statusName.value),
      ScoreOf(home.score), ScoreOf(away.score), VenueName(c))
  }

  /** The home side is the first competitor marked home; its score text is read as an integer. */
  lemma EspnItemFields(e: EspnEvent, code: string, league: League, instant: string -> int)
    ensures var it := EspnItem(e, code, league, instant);
      && (it.Malformed? <==> !EspnWellFormed(e))
      && (it.Record? ==>
            var c := e.competitions[0];
            var h := FindSide(c.competitors, "home").value;
            && c.competitors[h].homeAway == "home"
            && it.rec.externalId == "ESPN_" + e.id
            && it.rec.leagueCode == code
            && it.rec.homeName == c.competitors[h].team.value.displayName
            && it.rec.homeExternalId == Some("ESPN_" + code + "_" + c.competitors[h].team.value.id)
            && it.rec.homeScore == ScoreOf(c.competitors[h].score)
            && it.rec.status == MapEspnStatus(e.statusName.value)
            && (c.venue.None? ==> it.rec.venue == Undefined))
  {
  }

  /** `(data).events || []`, where a failed sport is an `{ error }` entry. */
  function EspnEvents(entry: EspnService.Entry<EspnBoard>): seq<EspnEvent> {
    match entry
    case Board(b) => b.events.GetOr([])
    case ErrorEntry(_) => []
  }

  function EspnItems(es: seq<EspnEvent>, code: string, league: League, instant: string -> int): (r: seq<Item>)
    ensures |r| == |es| && forall i :: 0 <= i < |es| ==> r[i] == EspnItem(es[i], code, league, instant)
  {
    seq(|es|, i requires 0 <= i < |es| => EspnItem(es[i], code, league, instant))
  }

  // ---------------------------------------------------------------------------
  // KBO
  // ---------------------------------------------------------------------------

  /** The record `syncKbo` builds from a mapped game: no provider team ids, the scores as given. */
  function KboItem(g: KboService.KboGame, league: League, instant: string -> int): Item {
    Record(SyncRecord(
      "KBO_" + g.gameId, league.id, "KBO",
      g.homeTeam.name, g.awayTeam.name, None, None,
      instant(g.dateTime), MapKboStatus(g.statusCode),
      g.homeTeam.score, g.awayTeam.score, g.venue))
  }

  function KboItems(gs: seq<KboService.KboGame>, league: League, instant: string -> int): (r: seq<Item>)
    ensures |r| == |gs| && forall i :: 0 <= i < |gs| ==> r[i] == KboItem(gs[i], league, instant)
  {
    seq(|gs|, i requires 0 <= i < |gs| => KboItem(gs[i], league, instant))
  }

  /** A mapped KBO game never throws, and its teams are found by name (no provider ids). */
  lemma KboItemsWellFormed(gs: seq<KboService.KboGame>, league: League, instant: string -> int)
    ensures NoneMalformed(KboItems(gs, league, instant))
    ensures forall i :: 0 <= i < |gs| ==>
      KboItems(gs, league, instant)[i].rec.homeExternalId.None?
      && KboItems(gs, league, instant)[i].rec.externalId == "KBO_" + gs[i].gameId
  {
  }
}
