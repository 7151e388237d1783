/**
 * `upsertMatch`: the "smart upsert" of one provider record into the matches
 * table, keyed by `external_api_id`. A record without both team names is
 * dropped; a new id creates a row with the resolved team ids; a known id is
 * rewritten only when a tracked field differs, and then only its tracked
 * fields and `updated_at` change. The two team lookups happen before the
 * table is read, so the upsert receives their results. Also the effect of
 * upserting a provider batch in order, as the per-source loops do.
 */
module MatchUpsert {
  import opened Wrappers
  import opened SyncDomain

  datatype Outcome = Rejected | Created | Updated | Unchanged

  /** What one upsert did, and the matches table after it. */
  datatype UpsertResult = UpsertResult(outcome: Outcome, rows: map<string, Match>)

  // ---------------------------------------------------------------------------
  // The venue column
  // ---------------------------------------------------------------------------

  /** The venue a create stores: an `undefined` field is omitted, so both it and `null` give null. */
  function CreatedVenue(v: Js<string>): Option<string> {
    match v
    case Defined(x) => Some(x)
    case _ => None
  }

  /** The venue after an update: an `undefined` field is not written, so the stored one stays. */
  function UpdatedVenue(stored: Option<string>, v: Js<string>): Option<string> {
    match v
    case Undefined => stored
    case Null => None
    case Defined(x) => Some(x)
  }

  /**
   * How the venue of an existing row is compared with the record's. As
   * written the comparison is `!==`, and a stored column is never `undefined`;
   * as intended an `undefined` venue carries no information and is no change.
   * The upsert, the batches and the service take the comparison as a
   * parameter, so every property below says which of the two it holds for.
   */
  datatype VenueRule = StrictInequality | UndefinedIsNoChange

  predicate VenueDiffers(rule: VenueRule, stored: Option<string>, v: Js<string>) {
    match v
    case Undefined => rule == StrictInequality
    case Null => stored != None
    case Defined(x) => stored != Some(x)
  }

  // ---------------------------------------------------------------------------
  // One upsert
  // ---------------------------------------------------------------------------

  /** Both team names are present and non-empty. */
  predicate HasBothNames(rec: SyncRecord) {
    Truthy(rec.homeName) && Truthy(rec.awayName)
  }

  /** The five tracked fields: status, both scores, the kick-off instant and the venue. */
  predicate NeedsUpdate(rule: VenueRule, existing: Match, rec: SyncRecord) {
    existing.status != rec.status
    || existing.homeScore != rec.homeScore
    || existing.awayScore != rec.awayScore
    || existing.matchAt != rec.matchAt
    || VenueDiffers(rule, existing.venue, rec.venue)
  }

  /**
   * A stored row already says what the record says: the four tracked fields
   * match, and so does the venue unless the record leaves it `undefined`.
   */
  predicate Agrees(row: Match, rec: SyncRecord) {
    !NeedsUpdate(UndefinedIsNoChange, row, rec)
  }

  /** The row after an update: the tracked fields from the record, the time of writing, all else kept. */
  function Refreshed(existing: Match, rec: SyncRecord, now: int): Match {
    existing.(status := rec.status, homeScore := rec.homeScore, awayScore := rec.awayScore,
              matchAt := rec.matchAt, venue := UpdatedVenue(existing.venue, rec.venue),
              updatedAt := now)
  }

  /** The ids of the teams found for the two sides (`homeTeam?.id`, `awayTeam?.id`), null when not found. */
  datatype TeamIds = TeamIds(home: Option<string>, away: Option<string>)

  function NewRow(rec: SyncRecord, ids: TeamIds, now: int): Match
    requires HasBothNames(rec)
  {
    Match(rec.externalId, rec.leagueId, ids.home, ids.away, rec.homeName.value, rec.awayName.value,
          rec.matchAt, rec.status, rec.homeScore, rec.awayScore, CreatedVenue(rec.venue), now)
  }

  /**
   * `upsertMatch` once the two team lookups have returned `ids`, with the
   * venue compared under `rule`.
   */
  function Upsert(rule: VenueRule, rows: map<string, Match>, rec: SyncRecord, ids: TeamIds, now: int): UpsertResult
  {
    if !HasBothNames(rec) then UpsertResult(Rejected, rows)
    else if rec.externalId in rows then
      var existing := rows[rec.externalId];
      if NeedsUpdate(rule, existing, rec) then
        UpsertResult(Updated, rows[rec.externalId := Refreshed(existing, rec, now)])
      else UpsertResult(Unchanged, rows)
    else UpsertResult(Created, rows[rec.externalId := NewRow(rec, ids, now)])
  }

  /**
   * Under `rule`, a row that agrees with the record needs no update: always
   * with the intended comparison, and with `!==` when the record states its
   * venue.
   */
  predicate VenueDecides(rule: VenueRule, rec: SyncRecord) {
    rule == UndefinedIsNoChange || !rec.venue.Undefined?
  }

  /** A row the rule leaves alone agrees with the record; the converse holds when the rule decides. */
  lemma NoUpdateAgrees(rule: VenueRule, row: Match, rec: SyncRecord)
    ensures !NeedsUpdate(rule, row, rec) ==> Agrees(row, rec)
    ensures VenueDecides(rule, rec) && Agrees(row, rec) ==> !NeedsUpdate(rule, row, rec)
  {
  }

  /** Which of the four things an upsert does, and when, under either venue comparison. */
  lemma UpsertOutcome(rule: VenueRule, rows: map<string, Match>, rec: SyncRecord, ids: TeamIds, now: int)
    ensures var r := Upsert(rule, rows, rec, ids, now);
      && (r.outcome == Rejected <==> !HasBothNames(rec))
      && (r.outcome == Created <==> HasBothNames(rec) && rec.externalId !in rows)
      && (r.outcome == Unchanged <==>
            HasBothNames(rec) && rec.externalId in rows && !NeedsUpdate(rule, rows[rec.externalId], rec))
      && (r.outcome == Unchanged ==> Agrees(rows[rec.externalId], rec))
      && (VenueDecides(rule, rec) ==>
            (r.outcome == Unchanged <==>
               HasBothNames(rec) && rec.externalId in rows && Agrees(rows[rec.externalId], rec)))
  {
    if HasBothNames(rec) && rec.externalId in rows {
      NoUpdateAgrees(rule, rows[rec.externalId], rec);
    }
  }

  /**
   * What an upsert does to the table, under either venue comparison: nothing
   * when it rejects the record or finds it unchanged; otherwise the record's
   * row is present afterwards and agrees with the record, and every other row
   * is as it was.
   */
  lemma UpsertFrame(rule: VenueRule, rows: map<string, Match>, rec: SyncRecord, ids: TeamIds, now: int)
    ensures var r := Upsert(rule, rows, rec, ids, now);
      && (r.outcome == Rejected || r.outcome == Unchanged ==> r.rows == rows)
      && (r.outcome != Rejected ==> r.rows.Keys == rows.Keys + {rec.externalId})
      && (r.outcome != Rejected ==> Agrees(r.rows[rec.externalId], rec))
      && (forall k :: k in rows && k != rec.externalId ==> k in r.rows && r.rows[k] == rows[k])
  {
    var r := Upsert(rule, rows, rec, ids, now);
    if HasBothNames(rec) && rec.externalId in rows {
      var existing := rows[rec.externalId];
      NoUpdateAgrees(rule, existing, rec);
      if NeedsUpdate(rule, existing, rec) {
        assert r.rows == rows[rec.externalId := Refreshed(existing, rec, now)];
      }
    }
  }

  /**
   * An update rewrites the tracked fields and `updated_at` only: the id, the
   * league, the team ids and the team names stay what they were.
   */
  lemma UpdateKeepsIdentity(rule: VenueRule, rows: map<string, Match>, rec: SyncRecord, ids: TeamIds, now: int)
    requires Upsert(rule, rows, rec, ids, now).outcome == Updated
    ensures var before := rows[rec.externalId];
      var after := Upsert(rule, rows, rec, ids, now).rows[rec.externalId];
      && after.externalId == before.externalId && after.leagueId == before.leagueId
      && after.homeTeamId == before.homeTeamId && after.awayTeamId == before.awayTeamId
      && after.homeTeamName == before.homeTeamName && after.awayTeamName == before.awayTeamName
      && after.updatedAt == now
  {
  }

  /**
   * A create stores the record's id, league and names, and the looked-up team
   * ids, whatever they are; an update ignores them.
   */
  lemma CreateTakesTeamIds(rule: VenueRule, rows: map<string, Match>, rec: SyncRecord, ids: TeamIds, now: int)
    ensures var r := Upsert(rule, rows, rec, ids, now);
      r.outcome == Created ==>
        var row := r.rows[rec.externalId];
        && row.externalId == rec.externalId && row.leagueId == rec.leagueId
        && Some(row.homeTeamName) == rec.homeName && Some(row.awayTeamName) == rec.awayName
        && row.homeTeamId == ids.home && row.awayTeamId == ids.away
    ensures forall ids' :: Upsert(rule, rows, rec, ids, now).outcome != Created ==>
      Upsert(rule, rows, rec, ids', now) == Upsert(rule, rows, rec, ids, now)
  {
  }

  /** Every row is stored under its own `external_api_id`, so one id never has two rows. */
  predicate KeyedById(rows: map<string, Match>) {
    forall k :: k in rows ==> rows[k].externalId == k
  }

  lemma UpsertKeepsKeyedById(rule: VenueRule, rows: map<string, Match>, rec: SyncRecord, ids: TeamIds, now: int)
    requires KeyedById(rows)
    ensures KeyedById(Upsert(rule, rows, rec, ids, now).rows)
  {
  }

  /**
   * Upserting a record a second time writes nothing, whenever and whatever
   * the team lookups give: always with the intended venue comparison, and
   * with `!==` for a record that states its venue.
   */
  lemma UpsertTwiceWritesOnce(rule: VenueRule, rows: map<string, Match>, rec: SyncRecord, ids: TeamIds, now: int,
                              ids': TeamIds, now': int)
    requires VenueDecides(rule, rec)
    ensures var once := Upsert(rule, rows, rec, ids, now).rows;
      var twice := Upsert(rule, once, rec, ids', now');
      twice.rows == once && (twice.outcome == Rejected || twice.outcome == Unchanged)
  {
    UpsertFrame(rule, rows, rec, ids, now);
    var once := Upsert(rule, rows, rec, ids, now).rows;
    UpsertOutcome(rule, once, rec, ids', now');
  }

  // ---------------------------------------------------------------------------
  // The venue comparison as written
  // ---------------------------------------------------------------------------

  /**
   * As written, a record whose venue is `undefined` updates its existing row
   * on every run: the stored column is null or a name, never `undefined`. The
   * write changes nothing but `updated_at` besides the record's own fields.
   */
  lemma AsWrittenUndefinedVenueAlwaysUpdates(rows: map<string, Match>, rec: SyncRecord, ids: TeamIds,
                                             now: int)
    requires HasBothNames(rec) && rec.venue == Undefined && rec.externalId in rows
    ensures var r := Upsert(StrictInequality, rows, rec, ids, now);
      && r.outcome == Updated
      && r.rows[rec.externalId] == rows[rec.externalId].(status := rec.status,
           homeScore := rec.homeScore, awayScore := rec.awayScore, matchAt := rec.matchAt,
           updatedAt := now)
  {
  }

  /** Hence re-running such a record right after it was stored writes again. */
  lemma AsWrittenRerunRewrites(rows: map<string, Match>, rec: SyncRecord, ids: TeamIds, now: int,
                               now': int)
    requires HasBothNames(rec) && rec.venue == Undefined
    ensures var once := Upsert(StrictInequality, rows, rec, ids, now).rows;
      var twice := Upsert(StrictInequality, once, rec, ids, now');
      twice.outcome == Updated && twice.rows[rec.externalId].updatedAt == now'
  {
    var once := Upsert(StrictInequality, rows, rec, ids, now).rows;
    assert rec.externalId in once;
    AsWrittenUndefinedVenueAlwaysUpdates(once, rec, ids, now');
  }

  // ---------------------------------------------------------------------------
  // A batch of records, upserted in order
  // ---------------------------------------------------------------------------

  /**
   * The table after upserting the items in order, the number of records
   * handed to the upsert (rejected ones included), and whether an item threw.
   * Nothing after the first item that throws is processed. `lookup` gives the
   * team ids the two `findTeam` calls return for a record.
   */
  datatype BatchResult = BatchResult(rows: map<string, Match>, count: nat, failed: bool)

  function RunBatch(rule: VenueRule, rows: map<string, Match>, lookup: SyncRecord -> TeamIds, items: seq<Item>,
                    now: int): BatchResult
    decreases |items|
  {
    if items == [] then BatchResult(rows, 0, false)
    else
      var b := RunBatch(rule, rows, lookup, items[..|items| - 1], now);
      if b.failed then b
      else match items[|items| - 1]
        case Malformed => b.(failed := true)
        case Record(rec) => BatchResult(Upsert(rule, b.rows, rec, lookup(rec), now).rows, b.count + 1, false)
  }

  /** One more item after a batch that did not throw. */
  lemma RunBatchSnoc(rule: VenueRule, rows: map<string, Match>, lookup: SyncRecord -> TeamIds, items: seq<Item>,
                     x: Item, now: int)
    requires !RunBatch(rule, rows, lookup, items, now).failed
    ensures var b := RunBatch(rule, rows, lookup, items, now);
      RunBatch(rule, rows, lookup, items + [x], now) ==
        if x.Malformed? then b.(failed := true)
        else BatchResult(Upsert(rule, b.rows, x.rec, lookup(x.rec), now).rows, b.count + 1, false)
  {
    assert (items + [x])[..|items + [x]| - 1] == items;
  }

  /** Once an item throws, the items after it change nothing. */
  lemma {:induction false} FailedBatchStops(rule: VenueRule, rows: map<string, Match>, lookup: SyncRecord -> TeamIds,
                                           a: seq<Item>, b: seq<Item>, now: int)
    requires RunBatch(rule, rows, lookup, a, now).failed
    ensures RunBatch(rule, rows, lookup, a + b, now) == RunBatch(rule, rows, lookup, a, now)
    decreases |b|
  {
    if b == [] {
      assert a + b == a;
    } else {
      var b' := b[..|b| - 1];
      FailedBatchStops(rule, rows, lookup, a, b', now);
      assert (a + b)[..|a + b| - 1] == a + b';
    }
  }

  predicate NoneMalformed(items: seq<Item>) {
    forall i :: 0 <= i < |items| ==> items[i].Record?
  }

  /**
   * A batch throws exactly when one of its items is malformed; otherwise it
   * counts every item. When it throws, the count is the position of the first
   * malformed item, and the writes of the records before it stay.
   */
  lemma {:induction false} BatchCount(rule: VenueRule, rows: map<string, Match>, lookup: SyncRecord -> TeamIds,
                                     items: seq<Item>, now: int)
    ensures var r := RunBatch(rule, rows, lookup, items, now);
      && (r.failed <==> !NoneMalformed(items))
      && (!r.failed ==> r.count == |items|)
      && (r.failed ==> r.count < |items| && items[r.count].Malformed? && NoneMalformed(items[..r.count])
                       && r.rows == RunBatch(rule, rows, lookup, items[..r.count], now).rows)
    decreases |items|
  {
    if items != [] {
      var front := items[..|items| - 1];
      BatchCount(rule, rows, lookup, front, now);
      var b := RunBatch(rule, rows, lookup, front, now);
      if b.failed {
        assert front[..b.count] == items[..b.count];
        assert !NoneMalformed(items) by { assert items[b.count] == front[b.count]; }
      } else if items[|items| - 1].Malformed? {
        assert items[..b.count] == front;
      } else {
        assert NoneMalformed(items) by {
          forall i | 0 <= i < |items| ensures items[i].Record? {
            if i < |front| { assert items[i] == front[i]; }
          }
        }
      }
    }
  }

  /** The external ids of the records of a batch. */
  function BatchIds(items: seq<Item>): set<string> {
    set i | 0 <= i < |items| && items[i].Record? :: items[i].rec.externalId
  }

  /** A batch leaves every row whose id none of its records carries as it was, and adds no such row. */
  lemma {:induction false} BatchTouchesOnlyItsIds(rule: VenueRule, rows: map<string, Match>,
                                                 lookup: SyncRecord -> TeamIds, items: seq<Item>, now: int)
    ensures var r := RunBatch(rule, rows, lookup, items, now).rows;
      forall k :: k !in BatchIds(items) ==> (k in r <==> k in rows) && (k in rows ==> r[k] == rows[k])
    decreases |items|
  {
    if items != [] {
      var front := items[..|items| - 1];
      BatchTouchesOnlyItsIds(rule, rows, lookup, front, now);
      assert BatchIds(front) <= BatchIds(items) by {
        forall k | k in BatchIds(front) ensures k in BatchIds(items) {
          var i :| 0 <= i < |front| && front[i].Record? && front[i].rec.externalId == k;
          assert items[i] == front[i];
        }
      }
      var b := RunBatch(rule, rows, lookup, front, now);
      var last := items[|items| - 1];
      if !b.failed && last.Record? {
        assert last.rec.externalId in BatchIds(items);
        UpsertFrame(rule, b.rows, last.rec, lookup(last.rec), now);
      }
    }
  }

  /** No two records of the batch share an external id. */
  predicate DistinctIds(items: seq<Item>) {
    forall i, j :: 0 <= i < j < |items| && items[i].Record? && items[j].Record? ==>
      items[i].rec.externalId != items[j].rec.externalId
  }

  /** Every record of the batch that names both teams has a row that agrees with it. */
  predicate Settled(rows: map<string, Match>, items: seq<Item>) {
    forall i :: 0 <= i < |items| && items[i].Record? && HasBothNames(items[i].rec) ==>
      items[i].rec.externalId in rows && Agrees(rows[items[i].rec.externalId], items[i].rec)
  }

  /**
   * After a batch of distinct ids that did not throw, every record of it is
   * settled, under either venue comparison.
   */
  lemma {:induction false} BatchSettles(rule: VenueRule, rows: map<string, Match>, lookup: SyncRecord -> TeamIds,
                                       items: seq<Item>, now: int)
    requires DistinctIds(items) && NoneMalformed(items)
    ensures Settled(RunBatch(rule, rows, lookup, items, now).rows, items)
    decreases |items|
  {
    if items != [] {
      var front := items[..|items| - 1];
      var last := items[|items| - 1];
      assert NoneMalformed(front) by {
        forall i | 0 <= i < |front| ensures front[i].Record? { assert front[i] == items[i]; }
      }
      BatchCount(rule, rows, lookup, front, now);
      BatchSettles(rule, rows, lookup, front, now);
      var b := RunBatch(rule, rows, lookup, front, now);
      UpsertFrame(rule, b.rows, last.rec, lookup(last.rec), now);
      UpsertOutcome(rule, b.rows, last.rec, lookup(last.rec), now);
      var r := Upsert(rule, b.rows, last.rec, lookup(last.rec), now).rows;
      forall i | 0 <= i < |items| && items[i].Record? && HasBothNames(items[i].rec)
        ensures items[i].rec.externalId in r && Agrees(r[items[i].rec.externalId], items[i].rec)
      {
        if i < |front| {
          assert items[i] == front[i];
          assert items[i].rec.externalId != last.rec.externalId;
        }
      }
    }
  }

  /** The rule decides every record of the batch. */
  predicate RuleDecides(rule: VenueRule, items: seq<Item>) {
    forall i :: 0 <= i < |items| && items[i].Record? ==> VenueDecides(rule, items[i].rec)
  }

  /**
   * A batch whose records all agree with the table writes nothing, when the
   * venue comparison decides each of them.
   */
  lemma {:induction false} SettledBatchWritesNothing(rule: VenueRule, rows: map<string, Match>,
                                                    lookup: SyncRecord -> TeamIds, items: seq<Item>,
                                                    now: int)
    requires Settled(rows, items) && RuleDecides(rule, items)
    ensures RunBatch(rule, rows, lookup, items, now).rows == rows
    decreases |items|
  {
    if items != [] {
      var front := items[..|items| - 1];
      assert Settled(rows, front) && RuleDecides(rule, front) by {
        forall i | 0 <= i < |front| ensures front[i] == items[i] { }
      }
      SettledBatchWritesNothing(rule, rows, lookup, front, now);
      var b := RunBatch(rule, rows, lookup, front, now);
      var last := items[|items| - 1];
      if !b.failed && last.Record? {
        UpsertOutcome(rule, rows, last.rec, lookup(last.rec), now);
        UpsertFrame(rule, rows, last.rec, lookup(last.rec), now);
      }
    }
  }

  /**
   * Re-running a batch of distinct ids that did not throw writes nothing: the
   * promise that an unchanged record causes no database write, for a whole
   * provider feed, whatever the team lookups give the second time. It holds
   * with the intended venue comparison, and with `!==` when every record
   * states its venue.
   */
  lemma RerunWritesNothing(rule: VenueRule, rows: map<string, Match>, lookup: SyncRecord -> TeamIds,
                           items: seq<Item>, now: int, lookup': SyncRecord -> TeamIds, now': int)
    requires DistinctIds(items) && NoneMalformed(items) && RuleDecides(rule, items)
    ensures var once := RunBatch(rule, rows, lookup, items, now).rows;
      RunBatch(rule, once, lookup', items, now').rows == once
  {
    BatchSettles(rule, rows, lookup, items, now);
    var once := RunBatch(rule, rows, lookup, items, now).rows;
    SettledBatchWritesNothing(rule, once, lookup', items, now');
  }
}
