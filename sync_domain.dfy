/**
 * The stored entities of the synchronisation engine and the normalised match
 * record every provider adapter hands to the upsert.
 */
module SyncDomain {
  import opened Wrappers

  /** The internal tri-state every provider status is mapped onto. */
  datatype Status = Scheduled | Ongoing | Finished

  datatype League = League(id: string, name: string, category: string)

  /** A stored team; `externalId` is provider-prefixed, e.g. "KBO_LG" or "ESPN_NFL_134". */
  datatype Team = Team(id: string, name: string, leagueId: string, externalId: Option<string>)

  /**
   * A stored match row. Team ids are null when the side was not resolved (or for
   * event-type entries); `venue` is a nullable column; instants are integers.
   */
  datatype Match = Match(
    externalId: string,
    leagueId: string,
    homeTeamId: Option<string>,
    awayTeamId: Option<string>,
    homeTeamName: string,
    awayTeamName: string,
    matchAt: int,
    status: Status,
    homeScore: int,
    awayScore: int,
    venue: Option<string>,
    updatedAt: int)

  /**
   * The record an adapter passes to the upsert. Names and provider team ids may
   * be missing; the venue is whatever the payload held, `undefined` included.
   */
  datatype SyncRecord = SyncRecord(
    externalId: string,
    leagueId: string,
    leagueCode: string,
    homeName: Option<string>,
    awayName: Option<string>,
    homeExternalId: Option<string>,
    awayExternalId: Option<string>,
    matchAt: int,
    status: Status,
    homeScore: int,
    awayScore: int,
    venue: Js<string>)

  /**
   * One element of a provider batch: a record built from a payload entry, or an
   * entry whose field access throws (a missing nested object).
   */
  datatype Item = Record(rec: SyncRecord) | Malformed

  /** JavaScript truthiness of an optional string: present and non-empty. */
  predicate Truthy(o: Option<string>) {
    o.Some? && o.value != ""
  }
}
