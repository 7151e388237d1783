/**
 * The synchronisation service: the matches table it writes, the per-record
 * upsert with its two team lookups, the four provider loops and the full run
 * that chains them. The loops are proved against `RunBatch` over the records
 * each feed yields, so the batch lemmas of the upsert module carry over to
 * whole provider runs.
 */
module SyncService {
  import opened Wrappers
  import opened Text
  import opened SyncDomain
  import opened MatchUpsert
  import opened TeamResolver
  import opened SyncSources
  import EspnService
  import KboService

  // ---------------------------------------------------------------------------
  // Team lookups and batches of batches
  // ---------------------------------------------------------------------------

  function IdOf(t: Option<Team>): Option<string> {
    match t
    case Some(team) => Some(team.id)
    case None => None
  }

  /** The query `findTeam` is called with for one side of a record. */
  function SideQuery(rec: SyncRecord, name: Option<string>, externalId: Option<string>): Query {
    Query(name.GetOr(""), rec.leagueId, rec.leagueCode, externalId)
  }

  /** The ids of the teams the two `findTeam` calls resolve for a record. */
  function TeamIdsFor(teams: seq<Team>, simplify: string -> string): SyncRecord -> TeamIds {
    (rec: SyncRecord) => TeamIds(IdOf(Resolve(SideQuery(rec, rec.homeName, rec.homeExternalId), teams, simplify)),
                   IdOf(Resolve(SideQuery(rec, rec.awayName, rec.awayExternalId), teams, simplify)))
  }

  /** The concatenation of a list of batches, in order. */
  function Flatten(groups: seq<seq<Item>>): seq<Item>
    decreases |groups|
  {
    if groups == [] then [] else Flatten(groups[..|groups| - 1]) + groups[|groups| - 1]
  }

  lemma FlattenSnoc(groups: seq<seq<Item>>, i: nat)
    requires i < |groups|
    ensures Flatten(groups[..i + 1]) == Flatten(groups[..i]) + groups[i]
  {
    assert groups[..i + 1][..i] == groups[..i];
  }

  /** Flattening distributes over concatenation. */
  lemma {:induction false} FlattenAppend(a: seq<seq<Item>>, b: seq<seq<Item>>)
    ensures Flatten(a + b) == Flatten(a) + Flatten(b)
    decreases |b|
  {
    if b == [] {
      assert a + b == a;
    } else {
      var b' := b[..|b| - 1];
      FlattenAppend(a, b');
      assert (a + b)[..|a + b| - 1] == a + b';
    }
  }

  /** Every item of the flattened batch comes from one of the groups. */
  lemma {:induction false} FlattenNoneMalformed(groups: seq<seq<Item>>)
    requires forall i :: 0 <= i < |groups| ==> NoneMalformed(groups[i])
    ensures NoneMalformed(Flatten(groups))
    decreases |groups|
  {
    if groups != [] {
      var front := groups[..|groups| - 1];
      FlattenNoneMalformed(front);
      var a: seq<Item> := Flatten(front);
      var b: seq<Item> := groups[|groups| - 1];
      forall k | 0 <= k < |a + b| ensures (a + b)[k].Record? {
        if k >= |a| { assert (a + b)[k] == b[k - |a|]; }
      }
    }
  }

  /**
   * Item `j` after a prefix that did not throw: a record is upserted and
   * counted; a malformed item throws, and the rest of the batch changes
   * nothing.
   */
  lemma BatchStep(rule: VenueRule, rows: map<string, Match>, lookup: SyncRecord -> TeamIds, items: seq<Item>, j: nat, now: int)
    requires j < |items| && !RunBatch(rule, rows, lookup, items[..j], now).failed
    ensures var b := RunBatch(rule, rows, lookup, items[..j], now);
      && (items[j].Malformed? ==> RunBatch(rule, rows, lookup, items, now) == b.(failed := true))
      && (items[j].Record? ==>
            var u := Upsert(rule, b.rows, items[j].rec, lookup(items[j].rec), now);
            RunBatch(rule, rows, lookup, items[..j + 1], now) == BatchResult(u.rows, b.count + 1, false))
  {
    RunBatchSnoc(rule, rows, lookup, items[..j], items[j], now);
    assert items[..j] + [items[j]] == items[..j + 1];
    if items[j].Malformed? {
      FailedBatchStops(rule, rows, lookup, items[..j + 1], items[j + 1..], now);
      assert items[..j + 1] + items[j + 1..] == items;
    }
  }

  /** Running two batches one after the other is running their concatenation, the counts added. */
  lemma {:induction false} RunBatchAppend(rule: VenueRule, rows: map<string, Match>, lookup: SyncRecord -> TeamIds,
                                         a: seq<Item>, b: seq<Item>, now: int)
    requires !RunBatch(rule, rows, lookup, a, now).failed
    ensures var ra := RunBatch(rule, rows, lookup, a, now);
      var rb := RunBatch(rule, ra.rows, lookup, b, now);
      RunBatch(rule, rows, lookup, a + b, now) == BatchResult(rb.rows, ra.count + rb.count, rb.failed)
    decreases |b|
  {
    if b == [] {
      assert a + b == a;
    } else {
      var b' := b[..|b| - 1];
      RunBatchAppend(rule, rows, lookup, a, b', now);
      assert (a + b)[..|a + b| - 1] == a + b';
    }
  }

  /**
   * One group more: the run over the first `i + 1` groups is the run over the
   * first `i` followed by group `i` on the table they left; and when group `i`
   * throws, the run over all the groups ends there.
   */
  lemma GroupStep(rule: VenueRule, start: map<string, Match>, lookup: SyncRecord -> TeamIds, groups: seq<seq<Item>>,
                  i: nat, rows: map<string, Match>, count: nat, now: int)
    requires i < |groups|
    requires RunBatch(rule, start, lookup, Flatten(groups[..i]), now) == BatchResult(rows, count, false)
    ensures var rb := RunBatch(rule, rows, lookup, groups[i], now);
      && RunBatch(rule, start, lookup, Flatten(groups[..i + 1]), now) == BatchResult(rb.rows, count + rb.count, rb.failed)
      && (rb.failed ==> RunBatch(rule, start, lookup, Flatten(groups), now) == BatchResult(rb.rows, count + rb.count, true))
  {
    FlattenSnoc(groups, i);
    RunBatchAppend(rule, start, lookup, Flatten(groups[..i]), groups[i], now);
    var rb := RunBatch(rule, rows, lookup, groups[i], now);
    if rb.failed {
      assert groups == groups[..i + 1] + groups[i + 1..];
      FlattenAppend(groups[..i + 1], groups[i + 1..]);
      FailedBatchStops(rule, start, lookup, Flatten(groups[..i + 1]), Flatten(groups[i + 1..]), now);
    }
  }

  // ---------------------------------------------------------------------------
  // The records each feed yields
  // ---------------------------------------------------------------------------

  /** The result of one provider loop: its count, or the exception it lets escape. */
  datatype Completion<T> = Returned(value: T) | Threw

  /** The table after a provider loop and what the loop returned. */
  datatype SourceRun = SourceRun(rows: map<string, Match>, result: Completion<nat>)

  /** `syncFootball`: per competition, its matches when its league is stored, nothing otherwise. */
  function FootballGroups(leagues: seq<League>, feed: seq<(string, Fetch<FbBoard>)>,
                          instant: string -> int): (groups: seq<seq<Item>>)
    ensures |groups| == |feed|
  {
    seq(|feed|, i requires 0 <= i < |feed| =>
      match LeagueByExternalId(leagues, feed[i].0)
      case None => []
      case Some(l) => FootballItems(FootballMatches(feed[i].1), l, instant))
  }

  /** A malformed match escapes `syncFootball`; otherwise it returns how many records it handed on. */
  function FootballRun(rule: VenueRule, rows: map<string, Match>, leagues: seq<League>, lookup: SyncRecord -> TeamIds,
                       feed: seq<(string, Fetch<FbBoard>)>, instant: string -> int, now: int): SourceRun {
    var b := RunBatch(rule, rows, lookup, Flatten(FootballGroups(leagues, feed, instant)), now);
    SourceRun(b.rows, if b.failed then Threw else Returned(b.count))
  }

  /**
   * `syncLck`: nothing when the fetch fails or no league is named LCK; a
   * throw inside the loop is caught and turned into 0, but the rows written
   * before it stay.
   */
  function LckRun(rule: VenueRule, rows: map<string, Match>, leagues: seq<League>, lookup: SyncRecord -> TeamIds,
                  feed: Fetch<seq<PandaMatch>>, instant: string -> int, now: int): SourceRun {
    match feed
    case FetchFailed(_) => SourceRun(rows, Returned(0))
    case Fetched(ms) =>
      match FirstLeagueNamed(leagues, "LCK")
      case None => SourceRun(rows, Returned(0))
      case Some(l) =>
        var b := RunBatch(rule, rows, lookup, LckItems(ms, l, instant), now);
        SourceRun(b.rows, Returned(if b.failed then 0 else b.count))
  }

  /** `syncEspn`: per sport of the schedule record, its events when a league's name contains the code. */
  function EspnGroups(leagues: seq<League>, schedule: seq<(EspnService.Sport, EspnService.Entry<EspnBoard>)>,
                      instant: string -> int): (groups: seq<seq<Item>>)
    ensures |groups| == |schedule|
  {
    seq(|schedule|, i requires 0 <= i < |schedule| =>
      var code := EspnService.Code(schedule[i].0);
      match FirstLeagueNamed(leagues, code)
      case None => []
      case Some(l) => EspnItems(EspnEvents(schedule[i].1), code, l, instant))
  }

  function EspnRun(rule: VenueRule, rows: map<string, Match>, leagues: seq<League>, lookup: SyncRecord -> TeamIds,
                   schedule: seq<(EspnService.Sport, EspnService.Entry<EspnBoard>)>,
                   instant: string -> int, now: int): SourceRun {
    var b := RunBatch(rule, rows, lookup, Flatten(EspnGroups(leagues, schedule, instant)), now);
    SourceRun(b.rows, if b.failed then Threw else Returned(b.count))
  }

  /** The season months `syncKbo` asks for, March to November. */
  const KboMonths: seq<string> := ["03", "04", "05", "06", "07", "08", "09", "10", "11"]

  /** One month of `syncKbo`: the games of that month's schedule, none when its request fails. */
  function KboMonthItems(league: League, year: string, month: string,
                         naver: KboService.NaverRequest -> Fetch<seq<KboService.NaverGame>>,
                         instant: string -> int): seq<Item> {
    match KboService.GetSchedule(year, month, naver)
    case FetchFailed(_) => []
    case Fetched(s) => KboItems(s.games, league, instant)
  }

  /** `syncKbo`: per month, the games of the schedule; a month whose request fails is skipped. */
  function KboGroups(league: League, year: string, naver: KboService.NaverRequest -> Fetch<seq<KboService.NaverGame>>,
                     instant: string -> int): (groups: seq<seq<Item>>)
    ensures |groups| == |KboMonths|
  {
    seq(|KboMonths|, i requires 0 <= i < |KboMonths| => KboMonthItems(league, year, KboMonths[i], naver, instant))
  }

  function KboRun(rule: VenueRule, rows: map<string, Match>, leagues: seq<League>, lookup: SyncRecord -> TeamIds,
                  naver: KboService.NaverRequest -> Fetch<seq<KboService.NaverGame>>, currentYear: int,
                  instant: string -> int, now: int): SourceRun {
    match FirstLeagueNamed(leagues, "KBO")
    case None => SourceRun(rows, Returned(0))
    case Some(l) =>
      var b := RunBatch(rule, rows, lookup, Flatten(KboGroups(l, IntToString(currentYear), naver, instant)), now);
      SourceRun(b.rows, Returned(b.count))
  }

  /** The four counts `syncAll` returns. */
  datatype Totals = Totals(football: nat, lck: nat, espn: nat, kbo: nat)

  /** Everything one scheduled run reads: the provider answers and the clock. */
  datatype Feeds = Feeds(
    football: seq<(string, Fetch<FbBoard>)>,
    panda: Fetch<seq<PandaMatch>>,
    espn: EspnService.Request -> Fetch<EspnBoard>,
    naver: KboService.NaverRequest -> Fetch<seq<KboService.NaverGame>>,
    currentYear: int)

  /** `syncAll`: football, LCK, ESPN and KBO in turn; an exception from one of them ends the run. */
  function SyncAllRun(rule: VenueRule, rows: map<string, Match>, leagues: seq<League>, lookup: SyncRecord -> TeamIds,
                      feeds: Feeds, instant: string -> int, now: int): (map<string, Match>, Completion<Totals>) {
    var fb := FootballRun(rule, rows, leagues, lookup, feeds.football, instant, now);
    if fb.result.Threw? then (fb.rows, Threw) else
    var lck := LckRun(rule, fb.rows, leagues, lookup, feeds.panda, instant, now);
    if lck.result.Threw? then (lck.rows, Threw) else
    var espn := EspnRun(rule, lck.rows, leagues, lookup, EspnService.AllSportsSchedule(feeds.espn), instant, now);
    if espn.result.Threw? then (espn.rows, Threw) else
    var kbo := KboRun(rule, espn.rows, leagues, lookup, feeds.naver, feeds.currentYear, instant, now);
    (kbo.rows, Returned(Totals(fb.result.value, lck.result.value, espn.result.value, kbo.result.value)))
  }

  // ---------------------------------------------------------------------------
  // Properties of the runs
  // ---------------------------------------------------------------------------

  /**
   * The KBO and LCK loops never let an exception escape; no KBO game is
   * malformed, so no month's batch is cut short either.
   */
  lemma CaughtSources(rule: VenueRule, rows: map<string, Match>, leagues: seq<League>, lookup: SyncRecord -> TeamIds,
                      feeds: Feeds, instant: string -> int, now: int)
    ensures LckRun(rule, rows, leagues, lookup, feeds.panda, instant, now).result.Returned?
    ensures KboRun(rule, rows, leagues, lookup, feeds.naver, feeds.currentYear, instant, now).result.Returned?
    ensures FirstLeagueNamed(leagues, "KBO").Some? ==>
      var groups := KboGroups(FirstLeagueNamed(leagues, "KBO").value, IntToString(feeds.currentYear), feeds.naver, instant);
      !RunBatch(rule, rows, lookup, Flatten(groups), now).failed
  {
    match FirstLeagueNamed(leagues, "KBO")
    case None =>
    case Some(l) =>
      var groups := KboGroups(l, IntToString(feeds.currentYear), feeds.naver, instant);
      forall i | 0 <= i < |groups| ensures NoneMalformed(groups[i]) {
        match KboService.GetSchedule(IntToString(feeds.currentYear), KboMonths[i], feeds.naver)
        case FetchFailed(_) =>
        case Fetched(s) => KboItemsWellFormed(s.games, l, instant);
      }
      FlattenNoneMalformed(groups);
      BatchCount(rule, rows, lookup, Flatten(groups), now);
  }

  /**
   * When an LCK match is malformed the loop reports 0, yet the matches before
   * it are written: the count understates what the run changed.
   */
  lemma LckFailureKeepsWrites(rule: VenueRule, rows: map<string, Match>, leagues: seq<League>, lookup: SyncRecord -> TeamIds,
                              ms: seq<PandaMatch>, l: League, instant: string -> int, now: int)
    requires FirstLeagueNamed(leagues, "LCK") == Some(l)
    requires !NoneMalformed(LckItems(ms, l, instant))
    ensures var run := LckRun(rule, rows, leagues, lookup, Fetched(ms), instant, now);
      var items := LckItems(ms, l, instant);
      exists k :: 0 <= k < |items| && items[k].Malformed? && NoneMalformed(items[..k])
        && run.result == Returned(0)
        && run.rows == RunBatch(rule, rows, lookup, items[..k], now).rows
  {
    var items := LckItems(ms, l, instant);
    BatchCount(rule, rows, lookup, items, now);
    var k := RunBatch(rule, rows, lookup, items, now).count;
    assert items[k].Malformed? && NoneMalformed(items[..k]);
  }

  /**
   * The live-score run repeats the full run to pick up score changes; for an
   * LCK feed with distinct match ids that does not throw, repeating it against
   * an unchanged feed writes nothing: always with the intended venue
   * comparison, and with `!==` when every match names its league.
   */
  lemma LckRerunWritesNothing(rule: VenueRule, rows: map<string, Match>, leagues: seq<League>, lookup: SyncRecord -> TeamIds,
                              ms: seq<PandaMatch>, instant: string -> int, now: int, now': int)
    requires forall i, j :: 0 <= i < j < |ms| ==> ms[i].id != ms[j].id
    requires forall l :: NoneMalformed(LckItems(ms, l, instant))
    requires rule == UndefinedIsNoChange ||
      forall i :: 0 <= i < |ms| && ms[i].league.Some? ==> !ms[i].league.value.name.Undefined?
    ensures var once := LckRun(rule, rows, leagues, lookup, Fetched(ms), instant, now).rows;
      LckRun(rule, once, leagues, lookup, Fetched(ms), instant, now').rows == once
  {
    match FirstLeagueNamed(leagues, "LCK")
    case None =>
    case Some(l) =>
      LckIdsDistinct(ms, l, instant);
      var items := LckItems(ms, l, instant);
      forall i | 0 <= i < |items| && items[i].Record? ensures VenueDecides(rule, items[i].rec) {
        LckItemFields(ms[i], l, instant);
      }
      RerunWritesNothing(rule, rows, lookup, LckItems(ms, l, instant), now, lookup, now');
  }

  /**
   * An exception from the football loop ends the run before LCK, ESPN and KBO
   * are synchronised: the run then ends the same whatever those three feeds
   * hold.
   */
  lemma FootballThrowEndsRun(rule: VenueRule, rows: map<string, Match>, leagues: seq<League>, lookup: SyncRecord -> TeamIds,
                             feeds: Feeds, instant: string -> int, now: int)
    requires FootballRun(rule, rows, leagues, lookup, feeds.football, instant, now).result.Threw?
    ensures SyncAllRun(rule, rows, leagues, lookup, feeds, instant, now)
         == (FootballRun(rule, rows, leagues, lookup, feeds.football, instant, now).rows, Threw)
    ensures forall others: Feeds :: others.football == feeds.football ==>
      SyncAllRun(rule, rows, leagues, lookup, others, instant, now) == SyncAllRun(rule, rows, leagues, lookup, feeds, instant, now)
  {
  }

  /**
   * The full run ends in an exception exactly when the football or the ESPN
   * loop meets a malformed entry; otherwise every source's count is reported.
   */
  lemma SyncAllThrowsOnlyFromFootballOrEspn(rule: VenueRule, rows: map<string, Match>, leagues: seq<League>,
                                            lookup: SyncRecord -> TeamIds, feeds: Feeds,
                                            instant: string -> int, now: int)
    ensures var fb := FootballRun(rule, rows, leagues, lookup, feeds.football, instant, now);
      var lck := LckRun(rule, fb.rows, leagues, lookup, feeds.panda, instant, now);
      var espn := EspnRun(rule, lck.rows, leagues, lookup, EspnService.AllSportsSchedule(feeds.espn), instant, now);
      var all := SyncAllRun(rule, rows, leagues, lookup, feeds, instant, now);
      all.1.Threw? <==> fb.result.Threw? || espn.result.Threw?
  {
    var fb := FootballRun(rule, rows, leagues, lookup, feeds.football, instant, now);
    CaughtSources(rule, fb.rows, leagues, lookup, feeds, instant, now);
    var lck := LckRun(rule, fb.rows, leagues, lookup, feeds.panda, instant, now);
    var espn := EspnRun(rule, lck.rows, leagues, lookup, EspnService.AllSportsSchedule(feeds.espn), instant, now);
    CaughtSources(rule, espn.rows, leagues, lookup, feeds, instant, now);
  }

  // ---------------------------------------------------------------------------
  // The service
  // ---------------------------------------------------------------------------

  class SyncService {
    /** The matches table, keyed by `external_api_id` (a unique column). */
    var matches: map<string, Match>
    /** The leagues and teams tables, which synchronisation reads but does not write. */
    const leagues: seq<League>
    const teams: seq<Team>
    /** The name simplification of the last `findTeam` stage. */
    const simplify: string -> string
    /** `new Date(text)` as an instant. */
    const instant: string -> int
    /** How `upsertMatch` compares the venue: `StrictInequality` is the service as written. */
    const rule: VenueRule

    constructor(leagues: seq<League>, teams: seq<Team>, simplify: string -> string,
                instant: string -> int, rule: VenueRule, matches: map<string, Match>)
      ensures this.leagues == leagues && this.teams == teams && this.simplify == simplify
      ensures this.instant == instant && this.rule == rule && this.matches == matches
    {
      this.leagues := leagues;
      this.rule := rule;
      this.teams := teams;
      this.simplify := simplify;
      this.instant := instant;
      this.matches := matches;
    }

    function Lookup(): SyncRecord -> TeamIds {
      TeamIdsFor(teams, simplify)
    }

    /**
     * `upsertMatch`: skip a record without both names; resolve both teams;
     * update an existing row only when something changed; create a new row
     * otherwise, with the team ids that were found.
     */
    method UpsertMatch(rec: SyncRecord, now: int) returns (outcome: Outcome)
      modifies this
      ensures var u := Upsert(rule, old(matches), rec, Lookup()(rec), now);
        matches == u.rows && outcome == u.outcome
    {
      UpsertOutcome(rule, matches, rec, Lookup()(rec), now);
      if !HasBothNames(rec) {
        return Rejected;
      }
      var home := FindTeam(teams, SideQuery(rec, rec.homeName, rec.homeExternalId), simplify);
      var away := FindTeam(teams, SideQuery(rec, rec.awayName, rec.awayExternalId), simplify);
      if rec.externalId in matches {
        var existing := matches[rec.externalId];
        if !NeedsUpdate(rule, existing, rec) {
          return Unchanged;
        }
        matches := matches[rec.externalId := Refreshed(existing, rec, now)];
        return Updated;
      }
      matches := matches[rec.externalId := NewRow(rec, TeamIds(IdOf(home), IdOf(away)), now)];
      return Created;
    }

    /**
     * The loop body every provider shares: hand each record to the upsert and
     * count it; an entry whose fields cannot be read throws, ending the loop.
     */
    method UpsertRecords(items: seq<Item>, now: int) returns (count: nat, threw: bool)
      modifies this
      ensures var b := RunBatch(rule, old(matches), Lookup(), items, now);
        matches == b.rows && count == b.count && threw == b.failed
    {
      ghost var start := matches;
      ghost var lookup := Lookup();
      count := 0;
      for j := 0 to |items|
        invariant RunBatch(rule, start, lookup, items[..j], now) == BatchResult(matches, count, false)
      {
        var item := items[j];
        BatchStep(rule, start, lookup, items, j, now);
        if item.Malformed? {
          return count, true;
        }
        var _ := UpsertMatch(item.rec, now);
        count := count + 1;
      }
      assert items[..|items|] == items;
      return count, false;
    }

    /** `syncFootball`: the competitions in turn, skipping those without a stored league. */
    method SyncFootball(feed: seq<(string, Fetch<FbBoard>)>, now: int) returns (r: Completion<nat>)
      modifies this
      ensures var run := FootballRun(rule, old(matches), leagues, Lookup(), feed, instant, now);
        matches == run.rows && r == run.result
    {
      ghost var start := matches;
      ghost var groups := FootballGroups(leagues, feed, instant);
      var count := 0;
      for i := 0 to |feed|
        invariant RunBatch(rule, start, Lookup(), Flatten(groups[..i]), now) == BatchResult(matches, count, false)
      {
        GroupStep(rule, start, Lookup(), groups, i, matches, count, now);
        var league := LeagueByExternalId(leagues, feed[i].0);
        var items := [];
        if league.Some? {
          items := FootballItems(FootballMatches(feed[i].1), league.value, instant);
        }
        assert items == groups[i];
        var n, threw := UpsertRecords(items, now);
        count := count + n;
        if threw {
          return Threw;
        }
      }
      assert groups[..|feed|] == groups;
      return Returned(count);
    }

    /** `syncLck`: one batch; a failure anywhere is logged and reported as 0. */
    method SyncLck(feed: Fetch<seq<PandaMatch>>, now: int) returns (count: nat)
      modifies this
      ensures var run := LckRun(rule, old(matches), leagues, Lookup(), feed, instant, now);
        matches == run.rows && Returned(count) == run.result
    {
      if feed.FetchFailed? {
        return 0;
      }
      var league := FirstLeagueNamed(leagues, "LCK");
      if league.None? {
        return 0;
      }
      var n, threw := UpsertRecords(LckItems(feed.data, league.value, instant), now);
      count := if threw then 0 else n;
    }

    /** `syncEspn`: the all-sports schedule, then the sports in turn, skipping those without a stored league. */
    method SyncEspn(http: EspnService.Request -> Fetch<EspnBoard>, now: int) returns (r: Completion<nat>)
      modifies this
      ensures var run := EspnRun(rule, old(matches), leagues, Lookup(), EspnService.AllSportsSchedule(http), instant, now);
        matches == run.rows && r == run.result
    {
      var schedule := EspnService.GetAllSportsSchedule(http);
      ghost var start := matches;
      ghost var groups := EspnGroups(leagues, schedule, instant);
      var count := 0;
      for i := 0 to |schedule|
        invariant RunBatch(rule, start, Lookup(), Flatten(groups[..i]), now) == BatchResult(matches, count, false)
      {
        GroupStep(rule, start, Lookup(), groups, i, matches, count, now);
        var code := EspnService.Code(schedule[i].0);
        var league := FirstLeagueNamed(leagues, code);
        var items := [];
        if league.Some? {
          items := EspnItems(EspnEvents(schedule[i].1), code, league.value, instant);
        }
        assert items == groups[i];
        var n, threw := UpsertRecords(items, now);
        count := count + n;
        if threw {
          return Threw;
        }
      }
      assert groups[..|schedule|] == groups;
      return Returned(count);
    }

    /** `syncKbo`: the months March to November of the current year; a month that fails is skipped. */
    method SyncKbo(naver: KboService.NaverRequest -> Fetch<seq<KboService.NaverGame>>, currentYear: int, now: int)
      returns (count: nat)
      modifies this
      ensures var run := KboRun(rule, old(matches), leagues, Lookup(), naver, currentYear, instant, now);
        matches == run.rows && Returned(count) == run.result
    {
      var league := FirstLeagueNamed(leagues, "KBO");
      if league.None? {
        return 0;
      }
      count := SyncKboSeason(league.value, IntToString(currentYear), naver, now);
    }

    /** The loop of `syncKbo` over the season's months, once the league is found. */
    method SyncKboSeason(league: League, year: string,
                         naver: KboService.NaverRequest -> Fetch<seq<KboService.NaverGame>>, now: int)
      returns (count: nat)
      modifies this
      ensures var b := RunBatch(rule, old(matches), Lookup(), Flatten(KboGroups(league, year, naver, instant)), now);
        matches == b.rows && count == b.count && !b.failed
    {
      ghost var start := matches;
      ghost var groups := KboGroups(league, year, naver, instant);
      count := 0;
      for i := 0 to |KboMonths|
        invariant RunBatch(rule, start, Lookup(), Flatten(groups[..i]), now) == BatchResult(matches, count, false)
      {
        GroupStep(rule, start, Lookup(), groups, i, matches, count, now);
        var n := SyncKboMonth(league, year, KboMonths[i], naver, now);
        count := count + n;
      }
      assert groups[..|KboMonths|] == groups;
    }

    /** The body of `syncKbo`'s loop for one month: its games upserted in turn, none of them malformed. */
    method SyncKboMonth(league: League, year: string, month: string,
                        naver: KboService.NaverRequest -> Fetch<seq<KboService.NaverGame>>, now: int)
      returns (n: nat)
      modifies this
      ensures var b := RunBatch(rule, old(matches), Lookup(), KboMonthItems(league, year, month, naver, instant), now);
        matches == b.rows && n == b.count && !b.failed
    {
      var data := KboService.GetSchedule(year, month, naver);
      var items := [];
      if data.Fetched? {
        items := KboItems(data.data.games, league, instant);
        KboItemsWellFormed(data.data.games, league, instant);
      }
      BatchCount(rule, matches, Lookup(), items, now);
      var threw;
      n, threw := UpsertRecords(items, now);
    }

    /** `syncAll`: the four loops in order; an exception from one of them escapes and ends the run. */
    method SyncAll(feeds: Feeds, now: int) returns (r: Completion<Totals>)
      modifies this
      ensures var run := SyncAllRun(rule, old(matches), leagues, Lookup(), feeds, instant, now);
        matches == run.0 && r == run.1
    {
      var football := SyncFootball(feeds.football, now);
      if football.Threw? {
        return Threw;
      }
      var lck := SyncLck(feeds.panda, now);
      var espn := SyncEspn(feeds.espn, now);
      if espn.Threw? {
        return Threw;
      }
      var kbo := SyncKbo(feeds.naver, feeds.currentYear, now);
      return Returned(Totals(football.value, lck, espn.value, kbo));
    }

    /** `syncLiveScores`: the full run again. */
    method SyncLiveScores(feeds: Feeds, now: int)
      modifies this
      ensures matches == SyncAllRun(rule, old(matches), leagues, Lookup(), feeds, instant, now).0
    {
      var _ := SyncAll(feeds, now);
    }
  }
}
