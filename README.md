# ForTheTeam match calendar — a verified model

ForTheTeam shows fans a calendar of the matches of the teams they follow:
football, KBO baseball, LCK esports and the four ESPN leagues. The back end
synchronises every provider's schedule into one matches table. The web client
filters, orders and labels those matches.

This project models in Dafny the parts of that system that decide
something, and proves what they promise.

- **Synchronisation engine.**
  - The four status mappers.
  - The six-stage team resolver `findTeam`, with its name normaliser, its KBO
    short-code table and its "simplifier".
  - The smart upsert, which rejects, creates, updates or leaves a row alone.
    How it compares the venue is a parameter: the source's `!==`
    (`StrictInequality`) or the comparison it evidently intends
    (`UndefinedIsNoChange`, see Findings). Each property says which of the
    two it holds for; most hold for both.
  - The per-provider loops (`syncFootball`, `syncLck`, `syncEspn`,
    `syncKbo`) and `syncAll`, with their counts and the exceptions they catch
    or let escape. They are a class over the matches table, built with a venue
    comparison; `StrictInequality` gives the service as written.
- **Provider services.**
  - ESPN: the sports table, the request parameters, the season date ranges
    and the per-sport result record.
  - KBO: the month window of a schedule request and the game mapping.
- **Read side.**
  - The follows table and `toggleFollow`, as a class.
  - The followed-teams and teams-by-league reads.
  - The calendar and recent-match queries, each a filter, an order and a
    limit.
- **Web client.**
  - The API-to-event transform.
  - The calendar's filter-and-sort and its month navigation.
  - The D-day label.
  - The home page's optimistic follow toggle with rollback, as a class.
  - The team picker's grouping of teams into sport → league → team, as a
    class with an in-place walk.

Every part that depends on something outside the model takes it as a
parameter:

- the provider answers (HTTP);
- the clock and "today";
- reading a date text in local time;
- the Unicode decomposition of characters other than Hangul syllables.

The matches table is a `map` keyed by `external_api_id`. The teams, leagues
and follows tables are sequences in storage order; `findFirst` takes the
first match in that order. JavaScript's three states of a field (a value,
`null`, `undefined`) are kept apart where the code treats them differently.

Module layout:

| file | models |
|---|---|
| `status_mapping.dfy` | the four `map*Status` functions |
| `team_names.dfy` | `normalizeTeamName`, `getKboShortName`, the simplifier |
| `team_resolver.dfy` | `findTeam` |
| `match_upsert.dfy` | `upsertMatch` and a run of upserts |
| `sync_sources.dfy` | the records each loop builds from a provider payload, `getLeagueByExternalId` |
| `sync_service.dfy` | the sync loops, `syncAll`, `syncLiveScores` (class `SyncService`) |
| `espn_service.dfy` | `getScoreboard`, `getSeasonSchedule`'s request, `getSeasonDateRange`, `getAllSportsSchedule` |
| `kbo_service.dfy` | `getSchedule`'s window, `mapGames` |
| `teams_service.dfy` | `toggleFollow` (class `TeamsStore`), `getFollowedTeams`, `getTeamsByLeague` |
| `matches_service.dfy` | `findCalendarMatches`, `findRecentMatches` |
| `use_matches.dfy` | the `select` transform |
| `main_calendar.dfy` | `displayedEvents`, `nextMonth`, `prevMonth` |
| `date_utils.dfy` | `getDDay` |
| `home_page.dfy` | `fetchFollows`'s mapping, `toggleTeam` (class `Home`) |
| `team_selector.dfy` | `fetchTeams` (class `Picker`), `getSportIcon` |
| `wrappers.dfy`, `sync_domain.dfy`, `front_types.dfy` | shared data types |
| `text.dfy`, `text_order.dfy`, `sorting.dfy`, `filtering.dfy`, `civil_calendar.dfy` | string, ordering, stable sort, filter and proleptic Gregorian calendar helpers |

## Model

| member | source | states |
|---|---|---|
| StatusMapping.MapFootballStatus | neuproject-back/src/modules/sync/sync.service.ts:402-406 | exactly `FINISHED` is finished, exactly `IN_PLAY` is ongoing, every other text is scheduled |
| StatusMapping.MapKboStatus | neuproject-back/src/modules/sync/sync.service.ts:408-412 | exactly `RESULT` is finished, exactly `RUN` is ongoing |
| StatusMapping.MapPandaStatus | neuproject-back/src/modules/sync/sync.service.ts:414-418 | exactly `finished` is finished, exactly `running` is ongoing |
| StatusMapping.MapEspnStatus | neuproject-back/src/modules/sync/sync.service.ts:420-424 | exactly `STATUS_FINAL` is finished, exactly `STATUS_IN_PROGRESS` is ongoing |
| StatusMapping.UnknownStatusIsScheduled | neuproject-back/src/modules/sync/sync.service.ts:402-424 | any text outside the eight provider words, the empty one included, is scheduled under all four mappers |
| TeamNames.PrefixMatchLength | neuproject-back/src/modules/sync/sync.service.ts:360 | the leading alternative matches iff the name starts with a generic prefix word (`FC`, `Real`, any case) followed by a white-space character, and its match is that word and that one character |
| TeamNames.StripLeadingWord | neuproject-back/src/modules/sync/sync.service.ts:359-360 | a name that starts with `FC` or `Real`, in any case, and white space loses that word and the one white-space character after it |
| TeamNames.FirstSuffixMatch | neuproject-back/src/modules/sync/sync.service.ts:360 | the leftmost position where white space and a generic suffix word end the name; none before it |
| TeamNames.StripGenericWord | neuproject-back/src/modules/sync/sync.service.ts:359-360 | the replace returns a prefix or a suffix of the name, and changes it iff the name holds a generic word at its start or end |
| TeamNames.StripTrailingWord | neuproject-back/src/modules/sync/sync.service.ts:360 | only the last generic word is removed: `a + " " + w` becomes `a` even when `a` itself ends in a generic word |
| TeamNames.NoWhitespaceInWords | neuproject-back/src/modules/sync/sync.service.ts:360 | a text holding white space is never one of the generic words |
| TeamNames.WithoutWhitespaceIsNormal | neuproject-back/src/modules/sync/sync.service.ts:358-362 | a name without white space is left unchanged by `normalizeTeamName` |
| TeamNames.NormalizedIsPieceOfName | neuproject-back/src/modules/sync/sync.service.ts:358-362 | the normalised name always occurs inside the original name |
| TeamNames.TrimIsPiece | neuproject-back/src/modules/sync/sync.service.ts:361 | a trimmed text occurs inside the text |
| TeamNames.ExactKeyIndex | neuproject-back/src/modules/sync/sync.service.ts:379 | the index of the table entry whose key is exactly the name, or none when no key equals it |
| TeamNames.FirstContainedKeyIndex | neuproject-back/src/modules/sync/sync.service.ts:382-384 | the first entry, in table order, whose key occurs in the name; no earlier key occurs |
| TeamNames.KboTableShape | neuproject-back/src/modules/sync/sync.service.ts:365-376 | every code of the table is one of the ten club codes and every key is non-empty |
| TeamNames.KboShortName | neuproject-back/src/modules/sync/sync.service.ts:364-387 | the result, when present, is one of SS, NC, LG, KT, SK, WO, HH, LT, OB, HT |
| TeamNames.KboShortNameCases | neuproject-back/src/modules/sync/sync.service.ts:378-386 | an exact key decides; otherwise there is no code iff no key occurs in the name |
| TeamNames.ContainedKeyDecides | neuproject-back/src/modules/sync/sync.service.ts:382-384 | without an exact key, the earliest contained key in table order gives the code |
| TeamNames.EmptyNameHasNoKboCode | neuproject-back/src/modules/sync/sync.service.ts:364-387 | the empty name has no short code |
| TeamNames.HangulJamo | neuproject-back/src/modules/sync/sync.service.ts:343 | `normalize("NFD")` turns a Hangul syllable into two or three conjoining jamo (U+1100 to U+11FF) |
| TeamNames.SquashChar | neuproject-back/src/modules/sync/sync.service.ts:343 | after decomposition a character survives, lower-cased, iff it is an ASCII letter or digit or a syllable 가 to 힣 |
| TeamNames.SquashJamo | neuproject-back/src/modules/sync/sync.service.ts:343 | a decomposed syllable leaves nothing after the two character filters |
| TeamNames.SimplifyAsWrittenDropsHangul | neuproject-back/src/modules/sync/sync.service.ts:343 | as written, simplifying a Hangul and ASCII name keeps only its ASCII part |
| TeamNames.AllHangulNameVanishes | neuproject-back/src/modules/sync/sync.service.ts:343 | as written, a name of Hangul syllables and spaces simplifies to the empty text |
| TeamNames.SimplifyKeepsHangul | neuproject-back/src/modules/sync/sync.service.ts:343 | with Hangul recomposed, a Hangul and ASCII name simplifies character by character as it stands |
| TeamNames.SimplifiedHangulName | neuproject-back/src/modules/sync/sync.service.ts:343 | with Hangul recomposed, a name of Hangul syllables simplifies to itself |
| TeamNames.SimplifiedAsciiName | neuproject-back/src/modules/sync/sync.service.ts:343 | an ASCII name with a letter or digit simplifies to a non-empty ASCII text |
| TeamResolver.FirstWhere | neuproject-back/src/modules/sync/sync.service.ts:287-289 | `findFirst`: the first team satisfying the condition, none before it; none means no team satisfies it |
| TeamResolver.FirstAccepted | neuproject-back/src/modules/sync/sync.service.ts:286-350 | each stage's lookup returns the first team it accepts, or nothing when it accepts none |
| TeamResolver.FirstHit | neuproject-back/src/modules/sync/sync.service.ts:286-352 | the cascade stops at the first stage that accepts a team, on that stage's first team; no hit iff no stage accepts any team |
| TeamResolver.ResolveKeysSpec | neuproject-back/src/modules/sync/sync.service.ts:282-353 | the result is one of the teams, and there is none exactly when no stage accepts any team |
| TeamResolver.HitAt | neuproject-back/src/modules/sync/sync.service.ts:290-350 | when the stages before stage n find nothing and stage n finds team i, `findTeam` returns team i |
| TeamResolver.NoHitAtAll | neuproject-back/src/modules/sync/sync.service.ts:352 | when no stage finds a team the result is null |
| TeamResolver.SomeStageAccepts | neuproject-back/src/modules/sync/sync.service.ts:282-353 | if any stage accepts any team, a team is returned |
| TeamResolver.FindTeam | neuproject-back/src/modules/sync/sync.service.ts:282-353 | the step-by-step lookups (guard, id stages, name stages with early returns) return exactly the cascade's result |
| TeamResolver.FindTeamByKeys | neuproject-back/src/modules/sync/sync.service.ts:285-309 | the external-id lookup, the KBO lookup and the no-name return give the cascade's result |
| TeamResolver.FindTeamByName | neuproject-back/src/modules/sync/sync.service.ts:310-335 | the exact, case-insensitive and normalised lookups, in turn, give the cascade's result |
| TeamResolver.FindBySimplifiedName | neuproject-back/src/modules/sync/sync.service.ts:338-352 | the scan of the league's teams for mutual containment of simplified names gives the cascade's result |
| TeamResolver.LastStageHit | neuproject-back/src/modules/sync/sync.service.ts:346-350 | after five empty stages, the first league team whose simplified name contains or lies in the input's is returned |
| TeamResolver.LastStageMiss | neuproject-back/src/modules/sync/sync.service.ts:350-352 | after five empty stages and no containment either way, the result is null |
| TeamResolver.BlankQueryFindsNothing | neuproject-back/src/modules/sync/sync.service.ts:283 | with no name and no provider id the result is null |
| TeamResolver.NoNameNoHit | neuproject-back/src/modules/sync/sync.service.ts:309 | without a name, once the id stages miss, the result is null |
| TeamResolver.ExternalIdWins | neuproject-back/src/modules/sync/sync.service.ts:286-291 | the first team carrying the supplied provider id is returned, in any league, before any name stage |
| TeamResolver.KboStageOnlyForKbo | neuproject-back/src/modules/sync/sync.service.ts:294-307 | the short-code stage accepts no team unless the league code is exactly `KBO` |
| TeamResolver.OtherLeaguesOnlyByExternalId | neuproject-back/src/modules/sync/sync.service.ts:286-350 | a team of another league is only ever returned by the provider-id stage |
| TeamResolver.BlankLookingNameAlwaysMatches | neuproject-back/src/modules/sync/sync.service.ts:309-335 | a non-empty name that trims to nothing resolves to some team whenever the league has one |
| TeamResolver.NameComparisonsReject | neuproject-back/src/modules/sync/sync.service.ts:313-335 | a name starting with an ASCII character never equals, nor case-folds to, nor occurs in a Hangul name |
| TeamResolver.ScriptsApart | neuproject-back/src/modules/sync/sync.service.ts:348 | ASCII text and Hangul text never contain one another |
| TeamResolver.ReachesLastStage | neuproject-back/src/modules/sync/sync.service.ts:286-335 | without ids, an ASCII query against a Hangul-named team gets past the first five stages |
| TeamResolver.AsWrittenAcceptsEveryHangulTeam | neuproject-back/src/modules/sync/sync.service.ts:343-348 | as written, the last stage accepts every team of the league whose name is Hangul and spaces |
| TeamResolver.AsWrittenTakesHangulTeam | neuproject-back/src/modules/sync/sync.service.ts:338-350 | as written, an ASCII provider name resolves to a Hangul-named team of its league |
| TeamResolver.AsWrittenResolvesUnrelatedTeam | neuproject-back/src/modules/sync/sync.service.ts:343-350 | as written, `Gen.G` in the LCK resolves to the team named `한화생명`; with Hangul kept, it resolves to nothing |
| TeamResolver.SimplifierKeepsScriptsApart | neuproject-back/src/modules/sync/sync.service.ts:343-348 | with Hangul kept, the last stage never pairs an ASCII name holding a letter or digit with a Hangul name |
| TeamResolver.SimplifierLeavesHangulTeam | neuproject-back/src/modules/sync/sync.service.ts:338-352 | with Hangul kept, such an ASCII name stays unresolved against a Hangul-named team |
| MatchUpsert.UpsertOutcome | neuproject-back/src/modules/sync/sync.service.ts:207-279 | under either venue comparison: rejected iff a side's name is missing or empty; created iff the id is new; unchanged iff the stored row needs no update under that comparison, and then it agrees with the record; otherwise updated. Where the comparison decides the record (the intended one, or `!==` with a stated venue), unchanged iff the row agrees |
| MatchUpsert.NoUpdateAgrees | neuproject-back/src/modules/sync/sync.service.ts:238-245 | a row either comparison leaves alone agrees with the record; conversely an agreeing row is left alone when the comparison decides the record |
| MatchUpsert.UpsertFrame | neuproject-back/src/modules/sync/sync.service.ts:207-279 | under either venue comparison: a reject or no-op writes nothing; otherwise only the record's row changes and it then agrees with the record; every other row is kept |
| MatchUpsert.UpdateKeepsIdentity | neuproject-back/src/modules/sync/sync.service.ts:246-256 | under either venue comparison, an update keeps the id, league, team ids and team names, and stamps `updated_at` |
| MatchUpsert.CreateTakesTeamIds | neuproject-back/src/modules/sync/sync.service.ts:265-279 | under either venue comparison, a created row carries the record's id, league and names and the resolved team ids (null when unresolved); the lookups matter only for a create |
| MatchUpsert.UpsertKeepsKeyedById | neuproject-back/src/modules/sync/sync.service.ts:232-236 | under either venue comparison, the table never holds a row under another row's external id |
| MatchUpsert.UpsertTwiceWritesOnce | neuproject-back/src/modules/sync/sync.service.ts:232-244 | upserting the same record again writes nothing, whatever the clock and the team lookups give: always under the intended comparison, and under `!==` when the record states its venue |
| MatchUpsert.AsWrittenUndefinedVenueAlwaysUpdates | neuproject-back/src/modules/sync/sync.service.ts:242 | under `!==`, a record with an undefined venue updates its existing row every time, even when nothing else differs |
| MatchUpsert.AsWrittenRerunRewrites | neuproject-back/src/modules/sync/sync.service.ts:237-256 | under `!==`, re-running such a record right after storing it writes the row again |
| MatchUpsert.RunBatchSnoc | neuproject-back/src/modules/sync/sync.service.ts:67-83 | under either venue comparison, one more item either throws or is upserted and counted |
| MatchUpsert.FailedBatchStops | neuproject-back/src/modules/sync/sync.service.ts:67-83 | under either venue comparison, after an item throws, later items change nothing |
| MatchUpsert.BatchCount | neuproject-back/src/modules/sync/sync.service.ts:67-83 | under either venue comparison, a batch fails iff an item is malformed; otherwise it counts every item; on failure the table is that of the items before the first malformed one |
| MatchUpsert.BatchTouchesOnlyItsIds | neuproject-back/src/modules/sync/sync.service.ts:67-83 | under either venue comparison, rows under ids no record of the batch carries are neither added, removed nor changed |
| MatchUpsert.BatchSettles | neuproject-back/src/modules/sync/sync.service.ts:232-279 | under either venue comparison, after a batch of distinct ids every record naming both teams has a row that agrees with it |
| MatchUpsert.SettledBatchWritesNothing | neuproject-back/src/modules/sync/sync.service.ts:244 | a batch whose records all agree with the table leaves it as it is, when the comparison decides every record (always for the intended one; for `!==`, when every venue is stated) |
| MatchUpsert.RerunWritesNothing | neuproject-back/src/modules/sync/sync.service.ts:43-50 | re-running a batch of distinct ids, as the live-score run does, writes nothing, at any time and with any lookups: always under the intended comparison, and under `!==` when every record states its venue |
| SyncSources.FirstLeagueNamed | neuproject-back/src/modules/sync/sync.service.ts:397 | the first league in table order whose name contains the text; none iff no name contains it |
| SyncSources.FootballLeagueName | neuproject-back/src/modules/sync/sync.service.ts:390-396 | PL, BL1, PD and SA map to EPL, Bundesliga, La Liga and Serie A; any other code is used as it is |
| SyncSources.LeagueByExternalId | neuproject-back/src/modules/sync/sync.service.ts:389-400 | a league whose name contains the mapped name, tagged with the code; none iff no league name contains it |
| SyncSources.OrZero | neuproject-back/src/modules/sync/sync.service.ts:78-79 | `?? 0`: the value when defined, 0 for null or undefined |
| SyncSources.ParseIntOrZeroRoundTrip | neuproject-back/src/modules/sync/sync.service.ts:194-195 | a score rendered as text reads back as itself |
| SyncSources.ParseIntOrZeroDefault | neuproject-back/src/modules/sync/sync.service.ts:194-195 | a text with no leading integer scores 0 |
| SyncSources.FootballItemFields | neuproject-back/src/modules/sync/sync.service.ts:67-81 | a match throws iff a team or the score object is missing; otherwise the record carries `FB_` ids, the league and its code, the mapped status, a missing score as 0, the venue as sent |
| SyncSources.FootballItems | neuproject-back/src/modules/sync/sync.service.ts:67-83 | one record per match, in order |
| SyncSources.FootballIdsDistinct | neuproject-back/src/modules/sync/sync.service.ts:69 | matches with distinct ids give records with distinct external ids |
| SyncSources.LckItemFields | neuproject-back/src/modules/sync/sync.service.ts:143-157 | an existing slot without an opponent, or a missing league, throws; fewer than two opponents gives a record the upsert rejects; no results gives scores 0; the venue is the league's name |
| SyncSources.LckItems | neuproject-back/src/modules/sync/sync.service.ts:142-159 | one record per match, in order |
| SyncSources.LckIdsDistinct | neuproject-back/src/modules/sync/sync.service.ts:144 | matches with distinct ids give records with distinct external ids |
| SyncSources.FindSide | neuproject-back/src/modules/sync/sync.service.ts:181-182 | the first competitor marked with that side; none when no competitor is |
| SyncSources.EspnItemFields | neuproject-back/src/modules/sync/sync.service.ts:179-197 | an event throws iff it lacks a competition, a side with a team, or a `status.type`; otherwise the home side is the first competitor marked home, ids are `ESPN_` prefixed, scores are `parseInt(...) \|\| 0`, and a missing venue is undefined |
| SyncSources.EspnItems | neuproject-back/src/modules/sync/sync.service.ts:179-199 | one record per event, in order |
| SyncSources.KboItems | neuproject-back/src/modules/sync/sync.service.ts:106-120 | one record per mapped game, in order |
| SyncSources.KboItemsWellFormed | neuproject-back/src/modules/sync/sync.service.ts:106-118 | a mapped game never throws, its record is keyed `KBO_` plus the game id, and it has no provider team ids |
| SyncService.FlattenNoneMalformed | neuproject-back/src/modules/sync/sync.service.ts:102-120 | months or sports whose items all are well formed give a run that cannot throw |
| SyncService.RunBatchAppend | neuproject-back/src/modules/sync/sync.service.ts:59-83 | running two batches in turn is running their concatenation, counts added |
| SyncService.GroupStep | neuproject-back/src/modules/sync/sync.service.ts:59-83 | the outer per-competition loop adds one group's batch; a throw there ends the whole run |
| SyncService.FootballGroups | neuproject-back/src/modules/sync/sync.service.ts:59-66 | one group per competition of the payload; a competition without a stored league gives no records |
| SyncService.EspnGroups | neuproject-back/src/modules/sync/sync.service.ts:174-177 | one group per sport of the schedule; a sport without a league naming it gives no records |
| SyncService.KboGroups | neuproject-back/src/modules/sync/sync.service.ts:95-124 | one group per season month, March to November; a month whose request fails gives no records |
| SyncService.CaughtSources | neuproject-back/src/modules/sync/sync.service.ts:97-130 | `syncKbo` and `syncLck` never let an exception escape, and no KBO month's batch is cut short by a throw |
| SyncService.LckFailureKeepsWrites | neuproject-back/src/modules/sync/sync.service.ts:136-164 | when an LCK match throws, the count reported is 0 but the rows upserted before it stay written |
| SyncService.LckRerunWritesNothing | neuproject-back/src/modules/sync/sync.service.ts:136-164 | re-running `syncLck` on the same well-formed matches writes nothing: always under the intended comparison, and under `!==` when every match's league has a name |
| SyncService.FootballThrowEndsRun | neuproject-back/src/modules/sync/sync.service.ts:25-37 | an exception from the football loop ends `syncAll` before LCK, ESPN and KBO run: the outcome is the football run's table and the throw, whatever the other feeds hold |
| SyncService.SyncAllThrowsOnlyFromFootballOrEspn | neuproject-back/src/modules/sync/sync.service.ts:25-37 | `syncAll` throws iff the football loop or the ESPN loop throws |
| SyncService.SyncService.constructor | neuproject-back/src/modules/sync/sync.service.ts:12-18 | the service starts over the given tables, parameters and venue comparison |
| SyncService.SyncService.UpsertMatch | neuproject-back/src/modules/sync/sync.service.ts:206-280 | the table and outcome are those of the upsert under the service's venue comparison, with the teams `findTeam` resolves for both sides |
| SyncService.SyncService.UpsertRecords | neuproject-back/src/modules/sync/sync.service.ts:67-83 | the loop over records leaves the table, count and throw of a batch run |
| SyncService.SyncService.SyncFootball | neuproject-back/src/modules/sync/sync.service.ts:55-86 | the nested loops leave the table and the count or throw of the football run |
| SyncService.SyncService.SyncLck | neuproject-back/src/modules/sync/sync.service.ts:136-165 | the LCK loop leaves the table of the LCK run and returns its count, 0 on any failure |
| SyncService.SyncService.SyncEspn | neuproject-back/src/modules/sync/sync.service.ts:170-202 | the loops over sports and events leave the table and the count or throw of the ESPN run |
| SyncService.SyncService.SyncKbo | neuproject-back/src/modules/sync/sync.service.ts:91-131 | the month loop leaves the table of the KBO run and returns its count; a failed month is skipped |
| SyncService.SyncService.SyncKboSeason | neuproject-back/src/modules/sync/sync.service.ts:101-124 | once the league is found, the loop over March to November leaves the table of the batch of all months' games and returns its count, and no month's batch stops early |
| SyncService.SyncService.SyncKboMonth | neuproject-back/src/modules/sync/sync.service.ts:103-123 | one month upserts every game of that month's schedule, or nothing when its request fails, and never stops early |
| SyncService.SyncService.SyncAll | neuproject-back/src/modules/sync/sync.service.ts:25-37 | the four loops in order leave the table and the totals, or the exception, of the full run |
| SyncService.SyncService.SyncLiveScores | neuproject-back/src/modules/sync/sync.service.ts:43-50 | the live run is the full run again |
| EspnService.SportsTable | neuproject-back/src/modules/espn/espn.service.ts:6-27 | four sports, each listed once, told apart by their codes and league paths |
| EspnService.ScoreboardRequest | neuproject-back/src/modules/espn/espn.service.ts:49-55 | the sport's scoreboard URL, limit 100, and `dates` only for a non-empty date |
| EspnService.SeasonYear | neuproject-back/src/modules/espn/espn.service.ts:132 | a missing or zero season means the current year |
| EspnService.SeasonRequest | neuproject-back/src/modules/espn/espn.service.ts:81-92 | limit 200, `season` only when non-zero, `dates` the season range |
| EspnService.RangeIsSeason | neuproject-back/src/modules/espn/espn.service.ts:131-147 | the range is the sport's first and last season day, each written `YYYYMMDD` |
| EspnService.NflRange | neuproject-back/src/modules/espn/espn.service.ts:134-136 | NFL: `{y}0901-{y+1}0215` |
| EspnService.NbaAndNhlAgree | neuproject-back/src/modules/espn/espn.service.ts:137-146 | NBA and NHL (the fall-through) ask for the same window |
| EspnService.ClosingYear | neuproject-back/src/modules/espn/espn.service.ts:134-146 | MLB's window ends in the season year; every other one ends the year after |
| EspnService.SeasonOpensBeforeItCloses | neuproject-back/src/modules/espn/espn.service.ts:134-146 | every window's days exist in the calendar and its first day comes before its last |
| EspnService.EntryOf | neuproject-back/src/modules/espn/espn.service.ts:117-122 | a fetched payload is stored as is; a failure becomes `{ error: message }` |
| EspnService.GetAllSportsSchedule | neuproject-back/src/modules/espn/espn.service.ts:113-126 | the loop over the sports table builds the result record |
| EspnService.AllSportsEntries | neuproject-back/src/modules/espn/espn.service.ts:113-126 | one entry per sport, NFL, NHL, NBA, MLB in order; an entry is an error iff its scoreboard request fails |
| KboService.MonthWindow | neuproject-back/src/modules/kbo/kbo.service.ts:19-21 | `fromDate` is day 01 and `toDate` the month's last day, both after the same `year-month-`; the last day's first digit is not 0, so `fromDate` ≤ `toDate` |
| KboService.LastDayIsMonthLength | neuproject-back/src/modules/kbo/kbo.service.ts:20-21 | the padded day is the number of days of the month by the Gregorian leap rule |
| KboService.ParsedLastDay | neuproject-back/src/modules/kbo/kbo.service.ts:20-21 | for any parsed year and month, the day is day 0 of the following month, padded to two digits |
| KboService.MapGameFields | neuproject-back/src/modules/kbo/kbo.service.ts:66-86 | a game is cancelled iff the provider says `cancel: true`; each side is built from that side's fields |
| KboService.MapGames | neuproject-back/src/modules/kbo/kbo.service.ts:65-88 | same length, element i built from input element i alone |
| KboService.MapGamesConcat | neuproject-back/src/modules/kbo/kbo.service.ts:65-88 | the mapping keeps order across concatenation |
| KboService.GetScheduleAsks | neuproject-back/src/modules/kbo/kbo.service.ts:17-60 | the request carries exactly the month window; a failure is passed on; the result holds every game of the answer, mapped, in order |
| TeamsService.FindFollow | neuproject-back/src/teams/teams.service.ts:48-53 | the first row of the (member, team) pair, none before it; none iff the pair is not followed |
| TeamsService.TeamById | neuproject-back/src/teams/teams.service.ts:62-67 | the team row of that id, or none when no row has it |
| TeamsService.WithoutId | neuproject-back/src/teams/teams.service.ts:57-59 | the delete keeps exactly the rows of other ids |
| TeamsService.WithoutIdRemovesRow | neuproject-back/src/teams/teams.service.ts:57-59 | with distinct ids, deleting row k's id removes exactly row k |
| TeamsService.ToggleFlips | neuproject-back/src/teams/teams.service.ts:46-69 | a toggle deletes the pair's row if it exists, otherwise creates one (refused only for an unknown team); whether the pair is followed flips |
| TeamsService.ToggleKeepsOtherPairs | neuproject-back/src/teams/teams.service.ts:57-67 | every other (member, team) pair keeps its follow state |
| TeamsService.TogglePreservesInvariant | neuproject-back/src/teams/teams.service.ts:46-69 | a toggle keeps row ids distinct and fresh, one row per pair, and every row's team stored |
| TeamsService.ToggleTwiceRestores | neuproject-back/src/teams/teams.service.ts:46-69 | two toggles of one pair restore whether it is followed |
| TeamsService.TeamsStore.constructor | neuproject-back/src/teams/teams.service.ts:6 | an empty follows table over the given teams, meeting the invariant |
| TeamsService.TeamsStore.ToggleFollow | neuproject-back/src/teams/teams.service.ts:46-69 | the find, then the delete or create, leave the table of the toggle and keep the invariant |
| TeamsService.FollowsOf | neuproject-back/src/teams/teams.service.ts:73-74 | exactly the member's rows |
| TeamsService.FollowedTeams | neuproject-back/src/teams/teams.service.ts:72-89 | one stored team per follow row of the member, in row order, each tagged followed |
| TeamsService.FollowedTeamsAreFollowed | neuproject-back/src/teams/teams.service.ts:72-89 | every team in the list is one the member follows |
| TeamsService.FollowsAreFollowedTeams | neuproject-back/src/teams/teams.service.ts:72-89 | every team the member follows is in the list |
| TeamsService.NameOrderIsTotalPreorder | neuproject-back/src/teams/teams.service.ts:29-31 | ordering by name is a total preorder |
| TeamsService.InLeague | neuproject-back/src/teams/teams.service.ts:23-25 | exactly the teams of the league |
| TeamsService.TeamsByLeague | neuproject-back/src/teams/teams.service.ts:21-33 | a reordering of exactly the league's teams, sorted by name ascending |
| MatchesService.CalendarWindowSpansMonth | neuproject-back/src/modules/matches/matches.service.ts:11-12 | the window runs from day 1 at 00:00:00 to the month's last day at 23:59:59, local time |
| MatchesService.InstantOrdersAreTotalPreorders | neuproject-back/src/modules/matches/matches.service.ts:51-53 | ascending and descending order by instant are total preorders |
| MatchesService.FindCalendarMatches | neuproject-back/src/modules/matches/matches.service.ts:10-57 | exactly the rows in the window that (for a member) have a followed side, or are event rows of a league with a followed team; ascending by instant |
| MatchesService.CalendarWithoutMember | neuproject-back/src/modules/matches/matches.service.ts:23 | with no member id, exactly the rows of the window |
| MatchesService.FindRecentMatches | neuproject-back/src/modules/matches/matches.service.ts:59-93 | at most 20 finished rows of the window with a followed side, latest first; fewer than 20 means all of them; every omitted row is no later than every returned one |
| MatchesService.RecentOmitsEventRows | neuproject-back/src/modules/matches/matches.service.ts:74-79 | for a member, a row without team ids is never in the recent list |
| UseMatches.NormalizeTeam | neuproject-front/src/hooks/useMatches.ts:38-48 | no team gives none; otherwise id and name are kept, and logo and colours are never empty, defaulting to the file's seven-character logo literal (the shield emoji's bytes as stored), `#FFFFFF` and `#000000` |
| UseMatches.Select | neuproject-front/src/hooks/useMatches.ts:18-67 | one event per row, in order, each built from its own row |
| UseMatches.EventKindAndIds | neuproject-front/src/hooks/useMatches.ts:19-64 | a race iff neither team id is set; the team ids, names and league are the row's |
| UseMatches.ScoreReadsBack | neuproject-front/src/hooks/useMatches.ts:61 | a score text iff the match is finished, and it splits at its colon into the two scores |
| UseMatches.LocalTextSplitsAtT | neuproject-front/src/hooks/useMatches.ts:31-34 | without a zone, the date is the text before the first `T`, and the time is up to five characters after it, or `00:00` when nothing follows |
| MainCalendar.ActiveTeam | neuproject-front/src/components/calendar/MainCalendar.tsx:52 | the first followed team of that id, as `find` returns it, or none when no team has it |
| MainCalendar.Shown | neuproject-front/src/components/calendar/MainCalendar.tsx:39-59 | nothing without followed teams; an event passes iff its race league or a side is followed and, with a main team set, it is that team's race or match |
| MainCalendar.ComparatorIsTotalPreorder | neuproject-front/src/components/calendar/MainCalendar.tsx:64-88 | the comparator is consistent: "at most 0" is a total preorder |
| MainCalendar.DisplayedEvents | neuproject-front/src/components/calendar/MainCalendar.tsx:36-89 | a permutation of the shown events; upcoming before past or finished; upcoming soonest first; past latest first |
| MainCalendar.DisplayedKeepsTies | neuproject-front/src/components/calendar/MainCalendar.tsx:64-88 | events the comparator ranks level (same side of today, same instant) keep the order of the shown list |
| Sorting.SortStable | neuproject-front/src/components/calendar/MainCalendar.tsx:64 | the sort is stable: the elements level with any element come out in the order they went in, as `Array.prototype.sort` guarantees |
| MainCalendar.DisplayedIffShown | neuproject-front/src/components/calendar/MainCalendar.tsx:36-89 | an event is displayed iff it passes both filters |
| MainCalendar.MonthStart | neuproject-front/src/components/calendar/MainCalendar.tsx:32-33 | the date read back is day 1 of a month 0 to 11 |
| MainCalendar.MonthStartIsConstructorDay | neuproject-front/src/components/calendar/MainCalendar.tsx:32-33 | that date is the day `new Date(year, monthIndex, 1)` denotes, the month index carried into the year |
| MainCalendar.NextMonthIsMonthLater | neuproject-front/src/components/calendar/MainCalendar.tsx:32 | next month is day 1 of the following month, as many days on as the current month is long |
| MainCalendar.PrevMonthIsMonthEarlier | neuproject-front/src/components/calendar/MainCalendar.tsx:33 | previous month is day 1 of the preceding month, January going back to December |
| MainCalendar.MonthStepsUndo | neuproject-front/src/components/calendar/MainCalendar.tsx:32-33 | forward then back, or back then forward, returns to day 1 of the same month |
| DateUtils.Label | neuproject-front/src/lib/dateUtils.ts:16-18 | 0 is `D-DAY`, a negative d is `D+` and \|d\|, a positive d is `D-` and d; NaN is `D-NaN` |
| DateUtils.LabelInjective | neuproject-front/src/lib/dateUtils.ts:14-18 | the label determines the difference |
| DateUtils.MissingPieceIsNaN | neuproject-front/src/lib/dateUtils.ts:10-11 | a text with fewer than three dash-separated pieces gives `D-NaN` |
| DateUtils.DateTextNumbers | neuproject-front/src/lib/dateUtils.ts:10 | a `YYYY-MM-DD` text splits into pieces that read back as the year, month and day |
| DateUtils.DDayOfDateText | neuproject-front/src/lib/dateUtils.ts:6-19 | the label of a date text is that of the day difference between the date and today, both at midnight; today's date is `D-DAY` |
| HomePage.WithoutTeam | neuproject-front/src/app/page.tsx:47 | every team of the id is gone; the others stay |
| HomePage.WithoutTeamSnoc | neuproject-front/src/app/page.tsx:47 | the removal keeps the others' relative order |
| HomePage.OptimisticFlips | neuproject-front/src/app/page.tsx:45-50 | the optimistic update flips whether the team's id is in the list |
| HomePage.OptimisticKeepsOthers | neuproject-front/src/app/page.tsx:45-50 | teams of other ids are in the list after iff before |
| HomePage.OptimisticPlacement | neuproject-front/src/app/page.tsx:45-50 | a team not in the list goes at the end after the list unchanged; a followed one leaves with every entry of its id, the rest in order |
| HomePage.FailureRestoresMembership | neuproject-front/src/app/page.tsx:59-63 | after a failed call the id's membership is as before; a followed team comes back at the end, not at its old place |
| HomePage.ToggleTwiceRestores | neuproject-front/src/app/page.tsx:43-66 | toggling a team not in the list twice, both calls succeeding, restores the list |
| HomePage.FormatFollowedTeamAsWritten | neuproject-front/src/app/page.tsx:25-33 | no logo, the logo URL only when non-empty, `#ff4655` and `#000000` defaults, no league id |
| HomePage.FormatFollowedTeam | neuproject-front/src/app/page.tsx:25-33 | the same mapping, carrying the record's league id |
| HomePage.FormatAll | neuproject-front/src/app/page.tsx:25 | one team per record, in order |
| HomePage.LoadedTeamsHideRaces | neuproject-front/src/app/page.tsx:25-33 | as written, no race with a league is ever shown for teams loaded from the follow API |
| HomePage.LoadedTeamsShowTheirRaces | neuproject-front/src/app/page.tsx:25-33 | with the league id carried, a race is shown iff a loaded team belongs to its league |
| HomePage.Home.constructor | neuproject-front/src/app/page.tsx:15 | the follow list starts empty; the page keeps the record mapping it is built with (`FormatFollowedTeamAsWritten` as written) |
| HomePage.Home.LoadFollows | neuproject-front/src/app/page.tsx:19-41 | for a signed-in member with a uid whose fetch succeeds, the list becomes the records under the page's mapping (as written, without league ids); otherwise it stays |
| HomePage.Home.ToggleTeam | neuproject-front/src/app/page.tsx:43-66 | the API is called iff signed in with a uid; membership flips unless the call fails, which restores it; other teams keep their membership |
| TeamSelector.LookupFinds | neuproject-front/src/components/team/TeamSelector.tsx:130 | a lookup finds an entry iff the table has the key |
| TeamSelector.TableEntry | neuproject-front/src/components/team/TeamSelector.tsx:113-128 | every key of the icon table is lower case and every icon is non-empty |
| TeamSelector.IconByFoldedName | neuproject-front/src/components/team/TeamSelector.tsx:112-131 | the icon of the lower-cased name when the table has it, the trophy otherwise |
| TeamSelector.SoccerIcon | neuproject-front/src/components/team/TeamSelector.tsx:112-131 | `Soccer` and `SOCCER` get the football icon |
| TeamSelector.DashRunsNoWhitespace | neuproject-front/src/components/team/TeamSelector.tsx:54 | no white space is left after the replace |
| TeamSelector.DashRunsChars | neuproject-front/src/components/team/TeamSelector.tsx:54 | every character of the result is a dash or one of the input's |
| TeamSelector.DashRunsKeepsPlainText | neuproject-front/src/components/team/TeamSelector.tsx:54 | a text without white space is left unchanged |
| TeamSelector.SportIdIsFixedPoint | neuproject-front/src/components/team/TeamSelector.tsx:53-54 | a sport id has no white space and no upper case, and is its own sport id |
| TeamSelector.SelectorTeam | neuproject-front/src/components/team/TeamSelector.tsx:80-88 | the trophy logo, the logo URL as sent, `#FFFFFF` and `#000000` defaults, the record's league id |
| TeamSelector.EntryOf | neuproject-front/src/components/team/TeamSelector.tsx:50-54 | records without a league id or a joined league give nothing; others give their sport, league and team |
| TeamSelector.SportIndex | neuproject-front/src/components/team/TeamSelector.tsx:57-66 | the position of the sport of that id, or the end when there is none |
| TeamSelector.LeagueIndex | neuproject-front/src/components/team/TeamSelector.tsx:69 | the position of the league of that id, or the end when there is none |
| TeamSelector.Dedup | neuproject-front/src/components/team/TeamSelector.tsx:57-77 | first-seen order, each element once |
| TeamSelector.GroupDescribed | neuproject-front/src/components/team/TeamSelector.tsx:47-91 | the walk yields sport ids in first-seen order, each sport's league ids in first-seen order, and each league's teams in input order |
| TeamSelector.GroupIdsDistinct | neuproject-front/src/components/team/TeamSelector.tsx:57-77 | sport ids are distinct, and league ids are distinct within a sport |
| TeamSelector.KeptRecordPlaced | neuproject-front/src/components/team/TeamSelector.tsx:69-88 | every kept record's team is in its league within its sport, whose teams are that sport's and league's records in input order |
| TeamSelector.EntryHasRecord | neuproject-front/src/components/team/TeamSelector.tsx:49-88 | every grouped entry comes from some input record |
| TeamSelector.LeagueTeamsCarryTheirLeague | neuproject-front/src/components/team/TeamSelector.tsx:87 | every team of a league carries that league's id |
| TeamSelector.SelectionIsFirstKept | neuproject-front/src/components/team/TeamSelector.tsx:95-100 | the first sport and its first league are those of the first kept record |
| TeamSelector.NoneKeptNoSports | neuproject-front/src/components/team/TeamSelector.tsx:50 | with no kept record there is no sport |
| TeamSelector.PlaceTeam | neuproject-front/src/components/team/TeamSelector.tsx:49-88 | the in-place step (skip, find or create the sport, find or create the league, push the team) is one step of the grouping |
| TeamSelector.PushTeam | neuproject-front/src/components/team/TeamSelector.tsx:69-88 | finding or appending the league, then pushing the team, is the grouping's step within one sport |
| TeamSelector.GroupTeams | neuproject-front/src/components/team/TeamSelector.tsx:49-91 | the `forEach` over the records yields the grouping |
| TeamSelector.Picker.constructor | neuproject-front/src/components/team/TeamSelector.tsx:30-36 | no data, loading, no error, no selection |
| TeamSelector.Picker.FetchTeams | neuproject-front/src/components/team/TeamSelector.tsx:41-106 | loading ends; a failure sets the error and leaves the data and selection; success stores the grouping, described as above, and selects the first sport and its first league when they exist |
| TextOrder.LexTotal | neuproject-back/src/teams/teams.service.ts:29-31 | any two names are comparable in the name order |
| TextOrder.LexTrans | neuproject-back/src/teams/teams.service.ts:29-31 | the name order is transitive |

## Left out

- HTTP calls to football-data, PandaScore, ESPN and Naver are parameters: a payload or a failure per request. The fixed headers and parameters of the Naver request are not modelled. `response.data.result?.games \|\| []` is the parameter's answer.
- The `@Cron` triggers, logging, React rendering, React Query caching and the socket gateway are not modelled.
- Prisma is not modelled; its tables are a map and sequences.
  - The "matches model not found" branch of `upsertMatch` (sync.service.ts lines 224-229) depends on the generated client. It is not part of this model.
  - The database collation is modelled as char-code order.
  - Ties in a database `orderBy` are modelled in storage order.
- Local time is a parameter:
  - the browser's rendering of a zoned instant (the UTC branch of `select`);
  - `new Date(text)` for a local date-time;
  - a fixed zone offset for the server's `new Date(y, m, d)`.
  - DST changes and `setDate` over a DST change are not modelled. `Invalid Date` is a parameter answer of `None`.
- `String.normalize("NFD")` is concrete for ASCII (no change) and for Hangul syllables (the Unicode algorithm). For every other character it is a parameter.
- Case folding is ASCII only. That is exact for the `/i` pattern of `normalizeTeamName`, whose letters are all ASCII (without the `u` flag a non-ASCII character never folds onto an ASCII one), and for the simplifier, which lowers only ASCII letters, digits and Hangul. For `toLowerCase` in the team picker, non-ASCII capitals (É, Ä) are not folded.
- Prisma's `mode: 'insensitive'` is modelled by the same ASCII folding; the database's folding of non-ASCII letters is not modelled.
- `new Date(text)` in the synchronisation path is a total parameter (`instant`), so an Invalid Date is not modelled. In the source its `getTime()` is NaN, which makes the update test (sync.service.ts line 241) always true; `toISOString()` (line 260) throws when a team is unresolved, and the database rejects it on a create. That exception would escape the football and ESPN loops and be caught in the LCK and KBO loops.
- The Naver game scores are untyped in kbo.service.ts (lines 66-86) and reach `home_score` and `away_score` unchecked; the model takes them as integers.
- `Number(text)` is modelled for decimal integers with an optional sign and surrounding white space. Decimals, exponents, hexadecimal and `Infinity` are not modelled.
- `parseInt` is modelled for a decimal integer with an optional sign after leading white space; the radix argument and radix prefixes (`0x`) are not modelled.
- Keys inherited from `Object.prototype` (`constructor`, `toString`, …) are not modelled in the icon and KBO lookups.
- HomePage.Home.ToggleTeam: the rollback is applied to the list as the optimistic update left it. A change another handler makes while the call is pending is not modelled.
- TeamSelector.Picker.FetchTeams: a thrown value that is not an `Error` sets the fixed Korean message in the source; the model carries the failure's message only.
- `activeSport` and `activeLeague` (TeamSelector.tsx lines 134-135) and the rest of the picker's rendering state are not modelled.
- `getSeasonSchedule` is modelled only as the request it sends (`EspnService.SeasonRequest`). It is the only caller of `getSeasonDateRange`, and its answer is a parameter.
- `getTeamById` and `getAllTeams` are plain reads and are not modelled.
- MatchesService.FindRecentMatches: the window's start is taken as `days` whole days of milliseconds before now. Calendar-day arithmetic across a DST change is not modelled.
- MatchUpsert.RunBatch: every update of one batch is stamped with the same `now`; the source reads the clock (`new Date()`) for each update (sync.service.ts line 254).
- MatchUpsert.NewRow: a created row's `updated_at` is set to `now`; the source does not set it on a create and leaves it to the database's default.
- DateUtils.DDayOfDateText: stated for years from 100 on. `new Date(y, …)` maps years 0-99 to 1900-1999 (this is modelled in `ConstructorYear`), but the lemma does not state that case.
- MainCalendar.NextMonthIsMonthLater, MainCalendar.PrevMonthIsMonthEarlier, MainCalendar.MonthStepsUndo: stated for years above 100 or 101, where the constructor's two-digit-year rule cannot apply.

## Findings

| source | as written | input that shows it | evidently intended | confidence | as-written member | corrected member |
|---|---|---|---|---|---|---|
| neuproject-back/src/modules/sync/sync.service.ts:242 | `existing.venue !== data.venue` compares the stored `null` with an adapter's `undefined` venue as different | any existing ESPN event without a venue, or any football match whose payload has no `venue`, re-synced with nothing changed | a re-sync of an unchanged record writes nothing: an undefined venue is no change (`UndefinedIsNoChange`) | medium, not executed | MatchUpsert.AsWrittenUndefinedVenueAlwaysUpdates, MatchUpsert.AsWrittenRerunRewrites | MatchUpsert.UpsertTwiceWritesOnce, MatchUpsert.RerunWritesNothing |
| neuproject-back/src/modules/sync/sync.service.ts:343 | `normalize("NFD")` splits every Hangul syllable into jamo, which the next filter removes, so a Hangul team name simplifies to the empty text and every name contains it | `findTeam("Gen.G", lck, "LCK")` with only the team `한화생명` stored in the league returns that team | Hangul names keep their syllables (the filter keeps 가 to 힣), so unrelated names do not match | high, not executed | TeamResolver.AsWrittenResolvesUnrelatedTeam, TeamNames.AllHangulNameVanishes | TeamResolver.SimplifierLeavesHangulTeam, TeamNames.SimplifiedHangulName |
| neuproject-front/src/app/page.tsx:25-33 | the followed-team mapping drops `league_id`, and the calendar keeps a race only when a followed team's `leagueId` equals the race's league id | a member following any F1 team: after the page loads, the league's races are filtered out of the calendar | followed teams carry their league id, as the team picker's teams do | medium, not executed | HomePage.LoadedTeamsHideRaces, HomePage.FormatFollowedTeamAsWritten | HomePage.LoadedTeamsShowTheirRaces, HomePage.FormatFollowedTeam |
