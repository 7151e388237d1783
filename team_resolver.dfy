/**
 * `findTeam`: turns a provider's team name, and optionally its provider id,
 * into a stored team by a cascade of six stages tried in a fixed order, each
 * a "first team that satisfies this" lookup over the teams table.
 */
module TeamResolver {
  import opened Wrappers
  import opened Text
  import opened SyncDomain
  import opened TeamNames

  /** The arguments of one resolution: the provider's name, the league, its code and the provider id. */
  datatype Query = Query(name: string, leagueId: string, leagueCode: string, externalId: Option<string>)

  datatype Stage =
    | ByExternalId        // the provider id, across all leagues
    | ByKboCode           // "KBO_" + short code, KBO only, within the league
    | ByExactName         // the trimmed name, within the league
    | ByNameIgnoringCase  // the same, ignoring case
    | ByNormalizedName    // the name without its generic word occurs in the stored name
    | BySimplifiedName    // either simplified name occurs in the other

  const Cascade: seq<Stage> :=
    [ByExternalId, ByKboCode, ByExactName, ByNameIgnoringCase, ByNormalizedName, BySimplifiedName]

  /** The provider id the KBO stage looks for: "KBO_" and the short code, when the league is KBO. */
  function KboExternalId(q: Query): Option<string>
  {
    if q.leagueCode == "KBO" then
      match KboShortName(q.name)
      case Some(code) => Some("KBO_" + code)
      case None => None
    else None
  }

  /**
   * What the stages compare stored teams with, each derived once from the
   * query: the provider id, the KBO id, the league, whether a name was given,
   * the trimmed name and its normalised form.
   */
  datatype Keys = Keys(
    externalId: Option<string>,
    kboId: Option<string>,
    leagueId: string,
    hasName: bool,
    clean: string,
    normalized: string)

  function KeysOf(q: Query): Keys {
    var clean := Trim(q.name);
    Keys(q.externalId, KboExternalId(q), q.leagueId, q.name != "", clean, NormalizeTeamName(clean))
  }

  /** The name stages compare the trimmed provider name (or its normalised form) with a stored name. */
  predicate NameAccepts(st: Stage, clean: string, normalized: string, stored: string, simplify: string -> string) {
    match st
    case ByExactName => stored == clean
    case ByNameIgnoringCase => Lower(stored) == Lower(clean)
    case ByNormalizedName => Contains(Lower(stored), Lower(normalized))
    case BySimplifiedName =>
      var a := simplify(clean);
      var b := simplify(stored);
      Contains(a, b) || Contains(b, a)
    case _ => false
  }

  /** Whether stage `st` would return team `t` if `t` were the only team. */
  predicate Accepts(k: Keys, st: Stage, t: Team, simplify: string -> string) {
    match st
    case ByExternalId => Truthy(k.externalId) && t.externalId == k.externalId
    case ByKboCode => k.kboId.Some? && t.leagueId == k.leagueId && t.externalId == k.kboId
    case _ => k.hasName && t.leagueId == k.leagueId && NameAccepts(st, k.clean, k.normalized, t.name, simplify)
  }

  /** `findFirst`: the first team at or after `from` that satisfies `p`. */
  function FirstWhere(p: Team -> bool, teams: seq<Team>, from: nat): (r: Option<nat>)
    ensures r.Some? ==> from <= r.value < |teams| && p(teams[r.value])
    ensures r.Some? ==> forall j :: from <= j < r.value ==> !p(teams[j])
    ensures r.None? ==> forall j :: from <= j < |teams| ==> !p(teams[j])
    decreases |teams| - from
  {
    if from >= |teams| then None
    else if p(teams[from]) then Some(from)
    else FirstWhere(p, teams, from + 1)
  }

  /** The lookup of stage `st`: the first team the stage accepts. */
  function FirstAccepted(k: Keys, st: Stage, teams: seq<Team>, simplify: string -> string): (r: Option<nat>)
    ensures r.Some? ==> r.value < |teams| && Accepts(k, st, teams[r.value], simplify)
    ensures r.Some? ==> forall j :: 0 <= j < r.value ==> !Accepts(k, st, teams[j], simplify)
    ensures r.None? ==> forall j :: 0 <= j < |teams| ==> !Accepts(k, st, teams[j], simplify)
  {
    FirstWhere(t => Accepts(k, st, t, simplify), teams, 0)
  }

  /** Where the cascade stops: the position of the stage in `Cascade`, and the team's index. */
  datatype Hit = Hit(stage: nat, index: nat)

  /**
   * A cascade of `n` lookups from position `s` on, where `accepts(s, t)` says
   * whether lookup `s` accepts team `t`: the earliest lookup that accepts any
   * team, and within it the earliest team.
   */
  function FirstHit(accepts: (nat, Team) -> bool, n: nat, s: nat, teams: seq<Team>): (r: Option<Hit>)
    requires s <= n
    ensures r.Some? ==> s <= r.value.stage < n && r.value.index < |teams|
    ensures r.Some? ==> accepts(r.value.stage, teams[r.value.index])
    ensures r.Some? ==> forall s', j :: s <= s' < r.value.stage && 0 <= j < |teams| ==> !accepts(s', teams[j])
    ensures r.Some? ==> forall j :: 0 <= j < r.value.index ==> !accepts(r.value.stage, teams[j])
    ensures r.None? <==> forall s', j :: s <= s' < n && 0 <= j < |teams| ==> !accepts(s', teams[j])
    decreases n - s
  {
    if s == n then None
    else match FirstWhere(t => accepts(s, t), teams, 0)
      case Some(i) => Some(Hit(s, i))
      case None => FirstHit(accepts, n, s + 1, teams)
  }

  /** Stage `s` of the cascade, as a test on one team. */
  function StageTest(k: Keys, simplify: string -> string): (nat, Team) -> bool {
    (s: nat, t: Team) => s < |Cascade| && Accepts(k, Cascade[s], t, simplify)
  }

  function ResolveHit(k: Keys, teams: seq<Team>, simplify: string -> string): Option<Hit> {
    FirstHit(StageTest(k, simplify), |Cascade|, 0, teams)
  }

  /** The cascade on the keys: the team of the first hit, or nothing when no stage accepts any team. */
  function ResolveKeys(k: Keys, teams: seq<Team>, simplify: string -> string): Option<Team> {
    var hit := ResolveHit(k, teams, simplify);
    if hit.None? then None else Some(teams[hit.value.index])
  }

  /** The result is one of the teams, and there is none exactly when no stage accepts any team. */
  lemma ResolveKeysSpec(k: Keys, teams: seq<Team>, simplify: string -> string)
    ensures ResolveKeys(k, teams, simplify).Some? ==> ResolveKeys(k, teams, simplify).value in teams
    ensures ResolveKeys(k, teams, simplify).None? <==>
            forall st, t :: st in Cascade && t in teams ==> !Accepts(k, st, t, simplify)
  {
    var hit := ResolveHit(k, teams, simplify);
    if hit.None? {
      forall st, t | st in Cascade && t in teams ensures !Accepts(k, st, t, simplify) {
        var s :| 0 <= s < |Cascade| && Cascade[s] == st;
        var j :| 0 <= j < |teams| && teams[j] == t;
        assert !StageTest(k, simplify)(s, teams[j]);
      }
    } else {
      assert StageTest(k, simplify)(hit.value.stage, teams[hit.value.index]);
    }
  }

  /** The team `findTeam` returns for a query. */
  function Resolve(q: Query, teams: seq<Team>, simplify: string -> string): Option<Team> {
    ResolveKeys(KeysOf(q), teams, simplify)
  }

  /** Stages before position `n` accept no team. */
  predicate NoHitBefore(k: Keys, teams: seq<Team>, simplify: string -> string, n: nat)
    requires n <= |Cascade|
  {
    forall s, j :: 0 <= s < n && 0 <= j < |teams| ==> !Accepts(k, Cascade[s], teams[j], simplify)
  }

  /** The cascade stops at the first stage with a hit, on that stage's first team. */
  lemma HitAt(k: Keys, teams: seq<Team>, simplify: string -> string, n: nat, i: nat)
    requires n < |Cascade| && NoHitBefore(k, teams, simplify, n)
    requires FirstAccepted(k, Cascade[n], teams, simplify) == Some(i)
    ensures ResolveKeys(k, teams, simplify) == Some(teams[i])
  {
    var test := StageTest(k, simplify);
    assert test(n, teams[i]);
    var h := ResolveHit(k, teams, simplify).value;
    assert test(h.stage, teams[h.index]);
    assert h.stage == n;
    assert h.index == i;
  }

  /** When no stage has a hit, nothing is found. */
  lemma NoHitAtAll(k: Keys, teams: seq<Team>, simplify: string -> string)
    requires NoHitBefore(k, teams, simplify, |Cascade|)
    ensures ResolveKeys(k, teams, simplify) == None
  {
    var test := StageTest(k, simplify);
    forall s, j | 0 <= s < |Cascade| && 0 <= j < |teams| ensures !test(s, teams[j]) {
    }
  }

  /** One more stage without a hit. */
  lemma NoHitStep(k: Keys, teams: seq<Team>, simplify: string -> string, n: nat)
    requires n < |Cascade| && NoHitBefore(k, teams, simplify, n)
    requires forall j :: 0 <= j < |teams| ==> !Accepts(k, Cascade[n], teams[j], simplify)
    ensures NoHitBefore(k, teams, simplify, n + 1)
  {
  }

  /** A stage that accepts some team means the cascade finds one. */
  lemma SomeStageAccepts(k: Keys, teams: seq<Team>, simplify: string -> string, n: nat, i: nat)
    requires n < |Cascade| && i < |teams| && Accepts(k, Cascade[n], teams[i], simplify)
    ensures ResolveKeys(k, teams, simplify).Some?
  {
    assert Cascade[n] in Cascade && teams[i] in teams;
    ResolveKeysSpec(k, teams, simplify);
  }

  /**
   * `findTeam` as the sequence of lookups the service performs, returning at
   * the first hit. The keys are derived up front; deriving them has no effect.
   */
  method FindTeam(teams: seq<Team>, q: Query, simplify: string -> string) returns (r: Option<Team>)
    ensures r == Resolve(q, teams, simplify)
  {
    if q.name == "" && !Truthy(q.externalId) {
      BlankQueryFindsNothing(q, teams, simplify);
      return None;
    }
    if q.name == "" {
      EmptyNameHasNoKboCode(q.name);
    }
    var keys := KeysOf(q);
    r := FindTeamByKeys(teams, keys, simplify);
  }

  /** The lookups after the opening guard: the two id stages, then the name stages when there is a name. */
  method FindTeamByKeys(teams: seq<Team>, k: Keys, simplify: string -> string) returns (r: Option<Team>)
    requires !k.hasName ==> k.kboId.None?
    ensures r == ResolveKeys(k, teams, simplify)
  {
    if Truthy(k.externalId) {
      var hit := FirstAccepted(k, ByExternalId, teams, simplify);
      if hit.Some? {
        HitAt(k, teams, simplify, 0, hit.value);
        return Some(teams[hit.value]);
      }
    }
    NoHitStep(k, teams, simplify, 0);
    if k.kboId.Some? {
      var hit := FirstAccepted(k, ByKboCode, teams, simplify);
      if hit.Some? {
        HitAt(k, teams, simplify, 1, hit.value);
        return Some(teams[hit.value]);
      }
    }
    NoHitStep(k, teams, simplify, 1);
    if !k.hasName {
      NoNameNoHit(k, teams, simplify);
      return None;
    }
    r := FindTeamByName(teams, k, simplify);
  }

  /** The name stages, reached when the id stages found nothing and the name is not empty. */
  method FindTeamByName(teams: seq<Team>, k: Keys, simplify: string -> string) returns (r: Option<Team>)
    requires k.hasName && NoHitBefore(k, teams, simplify, 2)
    ensures r == ResolveKeys(k, teams, simplify)
  {
    var n := 2;
    while n < 5
      invariant 2 <= n <= 5
      invariant NoHitBefore(k, teams, simplify, n)
    {
      var hit := FirstAccepted(k, Cascade[n], teams, simplify);
      if hit.Some? {
        HitAt(k, teams, simplify, n, hit.value);
        return Some(teams[hit.value]);
      }
      NoHitStep(k, teams, simplify, n);
      n := n + 1;
    }
    r := FindBySimplifiedName(teams, k, simplify);
  }

  /** The last stage: the first team of the league whose simplified name contains, or lies in, the input's. */
  method FindBySimplifiedName(teams: seq<Team>, k: Keys, simplify: string -> string) returns (r: Option<Team>)
    requires k.hasName && NoHitBefore(k, teams, simplify, 5)
    ensures r == ResolveKeys(k, teams, simplify)
  {
    var clean := simplify(k.clean);
    var j := 0;
    while j < |teams|
      invariant 0 <= j <= |teams|
      invariant forall i :: 0 <= i < j ==> !SimplifiedHit(k, teams[i], simplify)
    {
      if teams[j].leagueId == k.leagueId {
        var stored := simplify(teams[j].name);
        if Contains(clean, stored) || Contains(stored, clean) {
          LastStageHit(k, teams, simplify, j);
          return Some(teams[j]);
        }
      }
      j := j + 1;
    }
    LastStageMiss(k, teams, simplify);
    return None;
  }

  /** The last stage's test: same league, and either simplified name lies in the other. */
  predicate SimplifiedHit(k: Keys, t: Team, simplify: string -> string) {
    t.leagueId == k.leagueId && NameAccepts(BySimplifiedName, k.clean, k.normalized, t.name, simplify)
  }

  lemma LastStageHit(k: Keys, teams: seq<Team>, simplify: string -> string, j: nat)
    requires k.hasName && NoHitBefore(k, teams, simplify, 5)
    requires j < |teams| && SimplifiedHit(k, teams[j], simplify)
    requires forall i :: 0 <= i < j ==> !SimplifiedHit(k, teams[i], simplify)
    ensures ResolveKeys(k, teams, simplify) == Some(teams[j])
  {
    assert Cascade[5] == BySimplifiedName;
    HitAt(k, teams, simplify, 5, j);
  }

  lemma LastStageMiss(k: Keys, teams: seq<Team>, simplify: string -> string)
    requires k.hasName && NoHitBefore(k, teams, simplify, 5)
    requires forall i :: 0 <= i < |teams| ==> !SimplifiedHit(k, teams[i], simplify)
    ensures ResolveKeys(k, teams, simplify) == None
  {
    assert Cascade[5] == BySimplifiedName;
    NoHitStep(k, teams, simplify, 5);
    NoHitAtAll(k, teams, simplify);
  }

  /** Without a name only the id stages can hit. */
  lemma NoNameNoHit(k: Keys, teams: seq<Team>, simplify: string -> string)
    requires !k.hasName && NoHitBefore(k, teams, simplify, 1) && k.kboId.None?
    ensures ResolveKeys(k, teams, simplify) == None
  {
    assert NoHitBefore(k, teams, simplify, |Cascade|);
    NoHitAtAll(k, teams, simplify);
  }

  /** The opening guard is implied by the stages: with no name and no id nothing can match. */
  lemma BlankQueryFindsNothing(q: Query, teams: seq<Team>, simplify: string -> string)
    requires q.name == "" && !Truthy(q.externalId)
    ensures Resolve(q, teams, simplify) == None
  {
    EmptyNameHasNoKboCode(q.name);
    NoIdNoNameNoHit(KeysOf(q), teams, simplify);
  }

  lemma NoIdNoNameNoHit(k: Keys, teams: seq<Team>, simplify: string -> string)
    requires !k.hasName && !Truthy(k.externalId) && k.kboId.None?
    ensures ResolveKeys(k, teams, simplify) == None
  {
    NoHitStep(k, teams, simplify, 0);
    NoNameNoHit(k, teams, simplify);
  }

  /** A team carrying the supplied provider id wins over every name-based stage, in any league. */
  lemma ExternalIdWins(q: Query, teams: seq<Team>, simplify: string -> string, i: nat)
    requires Truthy(q.externalId)
    requires i < |teams| && teams[i].externalId == q.externalId
    requires forall j :: 0 <= j < i ==> teams[j].externalId != q.externalId
    ensures Resolve(q, teams, simplify) == Some(teams[i])
  {
    var k := KeysOf(q);
    assert k.externalId == q.externalId;
    FirstIdWins(k, teams, simplify, i);
  }

  lemma FirstIdWins(k: Keys, teams: seq<Team>, simplify: string -> string, i: nat)
    requires Truthy(k.externalId)
    requires i < |teams| && teams[i].externalId == k.externalId
    requires forall j :: 0 <= j < i ==> teams[j].externalId != k.externalId
    ensures ResolveKeys(k, teams, simplify) == Some(teams[i])
  {
    assert FirstAccepted(k, ByExternalId, teams, simplify) == Some(i);
    HitAt(k, teams, simplify, 0, i);
  }

  /** The KBO stage accepts nothing unless the league code is exactly "KBO". */
  lemma KboStageOnlyForKbo(q: Query, t: Team, simplify: string -> string)
    requires q.leagueCode != "KBO"
    ensures !Accepts(KeysOf(q), ByKboCode, t, simplify)
  {
  }

  /** Only the provider-id stage leaves the league: every other hit belongs to the queried league. */
  lemma OtherLeaguesOnlyByExternalId(q: Query, teams: seq<Team>, simplify: string -> string)
    requires Resolve(q, teams, simplify).Some?
    requires Resolve(q, teams, simplify).value.leagueId != q.leagueId
    ensures Truthy(q.externalId) && Resolve(q, teams, simplify).value.externalId == q.externalId
  {
    HitOutsideLeague(KeysOf(q), teams, simplify);
  }

  lemma HitOutsideLeague(k: Keys, teams: seq<Team>, simplify: string -> string)
    requires ResolveKeys(k, teams, simplify).Some?
    requires ResolveKeys(k, teams, simplify).value.leagueId != k.leagueId
    ensures Truthy(k.externalId) && ResolveKeys(k, teams, simplify).value.externalId == k.externalId
  {
    var hit := ResolveHit(k, teams, simplify).value;
    assert StageTest(k, simplify)(hit.stage, teams[hit.index]);
  }

  /**
   * A name of white space only passes the guard, trims to "", and the
   * normalised-name stage then accepts any stored name: such a name always
   * resolves to some team of the league, when the league has one.
   */
  lemma BlankLookingNameAlwaysMatches(q: Query, teams: seq<Team>, simplify: string -> string, i: nat)
    requires q.name != "" && Trim(q.name) == ""
    requires i < |teams| && teams[i].leagueId == q.leagueId
    ensures Resolve(q, teams, simplify).Some?
  {
    WithoutWhitespaceIsNormal("");
    EmptyNormalizedNameMatches(KeysOf(q), teams, simplify, i);
  }

  lemma EmptyNormalizedNameMatches(k: Keys, teams: seq<Team>, simplify: string -> string, i: nat)
    requires k.hasName && k.normalized == ""
    requires i < |teams| && teams[i].leagueId == k.leagueId
    ensures ResolveKeys(k, teams, simplify).Some?
  {
    ContainsBasics(Lower(teams[i].name), "");
    assert Accepts(k, Cascade[4], teams[i], simplify);
    SomeStageAccepts(k, teams, simplify, 4, i);
  }

  // ---------------------------------------------------------------------------
  // The last stage with the simplifier as written and as intended
  // ---------------------------------------------------------------------------

  function AsWrittenSimplifier(other: char -> string): string -> string {
    s => SimplifyAsWritten(other, s)
  }

  function Simplifier(other: char -> string): string -> string {
    s => Simplify(other, s)
  }

  /**
   * As written, a league team whose stored name is Hangul (and spaces) is
   * accepted by the last stage for every provider name: its simplified name is
   * empty, and every string contains the empty string.
   */
  lemma AsWrittenAcceptsEveryHangulTeam(other: char -> string, k: Keys, t: Team)
    requires k.hasName && t.leagueId == k.leagueId
    requires forall i :: 0 <= i < |t.name| ==> IsHangulSyllable(t.name[i]) || t.name[i] == ' '
    ensures Accepts(k, BySimplifiedName, t, AsWrittenSimplifier(other))
  {
    AllHangulNameVanishes(other, t.name);
    ContainsBasics(SimplifyAsWritten(other, k.clean), []);
  }

  /**
   * As intended, a Hangul name and an ASCII name with at least one letter or
   * digit never contain one another, so the last stage keeps them apart.
   */
  lemma SimplifierKeepsScriptsApart(other: char -> string, k: Keys, t: Team, i: nat)
    requires forall j :: 0 <= j < |k.clean| ==> k.clean[j] < '\U{80}'
    requires i < |k.clean| && IsNameChar(k.clean[i])
    requires |t.name| > 0 && forall j :: 0 <= j < |t.name| ==> IsHangulSyllable(t.name[j])
    ensures !Accepts(k, BySimplifiedName, t, Simplifier(other))
  {
    SimplifiedNamesApart(other, k.clean, k.normalized, t.name, i);
  }

  lemma SimplifiedNamesApart(other: char -> string, clean: string, normalized: string, stored: string, i: nat)
    requires forall j :: 0 <= j < |clean| ==> clean[j] < '\U{80}'
    requires i < |clean| && IsNameChar(clean[i])
    requires |stored| > 0 && forall j :: 0 <= j < |stored| ==> IsHangulSyllable(stored[j])
    ensures !NameAccepts(BySimplifiedName, clean, normalized, stored, Simplifier(other))
  {
    SimplifiedAsciiName(other, clean, i);
    SimplifiedHangulName(other, stored);
    ScriptsApart(Simplify(other, clean), stored);
  }

  /** Text in ASCII and text in Hangul never contain one another. */
  lemma ScriptsApart(a: string, h: string)
    requires |a| > 0 && forall i :: 0 <= i < |a| ==> a[i] < '\U{80}'
    requires |h| > 0 && forall i :: 0 <= i < |h| ==> IsHangulSyllable(h[i])
    ensures !Contains(a, h) && !Contains(h, a)
  {
    NotContainsForeignChar(a, h);
    NotContainsForeignChar(h, a);
  }

  /**
   * A provider name in ASCII, untouched by normalising, reaches the last stage
   * against a team stored under a Hangul name when there is no provider id
   * and no KBO id: nothing earlier takes it.
   */
  lemma ReachesLastStage(k: Keys, t: Team, simplify: string -> string)
    requires !Truthy(k.externalId) && k.kboId.None?
    requires |k.clean| > 0 && k.clean[0] < '\U{80}' && k.normalized == k.clean
    requires |t.name| > 0 && forall i :: 0 <= i < |t.name| ==> IsHangulSyllable(t.name[i])
    ensures NoHitBefore(k, [t], simplify, 5)
  {
    NameComparisonsReject(k.clean, t.name, simplify);
    OnlyLastStageLeft(k, t, simplify);
  }

  /** As written, such a provider name resolves to the Hangul team. */
  lemma AsWrittenTakesHangulTeam(other: char -> string, k: Keys, t: Team)
    requires !Truthy(k.externalId) && k.kboId.None? && k.hasName && t.leagueId == k.leagueId
    requires |k.clean| > 0 && k.clean[0] < '\U{80}' && k.normalized == k.clean
    requires |t.name| > 0 && forall i :: 0 <= i < |t.name| ==> IsHangulSyllable(t.name[i])
    ensures ResolveKeys(k, [t], AsWrittenSimplifier(other)) == Some(t)
  {
    ReachesLastStage(k, t, AsWrittenSimplifier(other));
    AsWrittenAcceptsEveryHangulTeam(other, k, t);
    HitAt(k, [t], AsWrittenSimplifier(other), 5, 0);
  }

  /** With the intended simplifier, the same name stays unresolved when it holds a letter or digit. */
  lemma SimplifierLeavesHangulTeam(other: char -> string, k: Keys, t: Team, i: nat)
    requires !Truthy(k.externalId) && k.kboId.None?
    requires forall j :: 0 <= j < |k.clean| ==> k.clean[j] < '\U{80}'
    requires i < |k.clean| && IsNameChar(k.clean[i]) && k.normalized == k.clean
    requires |t.name| > 0 && forall j :: 0 <= j < |t.name| ==> IsHangulSyllable(t.name[j])
    ensures ResolveKeys(k, [t], Simplifier(other)) == None
  {
    ReachesLastStage(k, t, Simplifier(other));
    SimplifierKeepsScriptsApart(other, k, t, i);
    MissAt(k, t, Simplifier(other), 5, BySimplifiedName);
    NoHitAtAll(k, [t], Simplifier(other));
  }

  /**
   * The consequence: the provider name "Gen.G" resolves, as written, to a team
   * stored as "한화생명", with which it shares no character; with the intended
   * simplifier it stays unresolved.
   */
  lemma AsWrittenResolvesUnrelatedTeam(other: char -> string, q: Query, t: Team)
    requires q == Query("Gen.G", "lck", "LCK", None)
    requires t == Team("hle", "한화생명", "lck", None)
    ensures Resolve(q, [t], AsWrittenSimplifier(other)) == Some(t)
    ensures Resolve(q, [t], Simplifier(other)) == None
  {
    ExampleNames(q.name, t.name);
    WithoutWhitespaceIsNormal(q.name);
    var k := KeysOf(q);
    AsWrittenTakesHangulTeam(other, k, t);
    SimplifierLeavesHangulTeam(other, k, t, 0);
  }

  lemma ExampleNames(a: string, h: string)
    requires a == "Gen.G" && h == "한화생명"
    ensures forall k :: 0 <= k < |a| ==> !IsWhitespace(a[k]) && a[k] < '\U{80}'
    ensures IsNameChar(a[0])
    ensures |h| > 0 && forall k :: 0 <= k < |h| ==> IsHangulSyllable(h[k])
  {
  }

  /** A Hangul name and a name starting with an ASCII character differ, also folded and as pieces. */
  lemma HangulVersusAscii(h: string, a: string)
    requires |h| > 0 && forall i :: 0 <= i < |h| ==> IsHangulSyllable(h[i])
    requires |a| > 0 && a[0] < '\U{80}'
    ensures h != a && Lower(h) != Lower(a) && !Contains(Lower(h), Lower(a))
  {
    assert h[0] != a[0];
    assert Lower(h)[0] != Lower(a)[0];
    NotContainsForeignChar(Lower(h), Lower(a));
  }

  /**
   * A stored Hangul name is not taken, by the exact, case-blind or normalised
   * comparison, for a provider name that starts with an ASCII character and
   * that normalising leaves alone.
   */
  lemma NameComparisonsReject(clean: string, stored: string, simplify: string -> string)
    requires |stored| > 0 && forall i :: 0 <= i < |stored| ==> IsHangulSyllable(stored[i])
    requires |clean| > 0 && clean[0] < '\U{80}'
    ensures !NameAccepts(ByExactName, clean, clean, stored, simplify)
    ensures !NameAccepts(ByNameIgnoringCase, clean, clean, stored, simplify)
    ensures !NameAccepts(ByNormalizedName, clean, clean, stored, simplify)
  {
    HangulVersusAscii(stored, clean);
  }

  /** Without a provider id and a KBO id, the two id stages find nothing. */
  lemma IdStagesMiss(k: Keys, teams: seq<Team>, simplify: string -> string)
    requires !Truthy(k.externalId) && k.kboId.None?
    ensures NoHitBefore(k, teams, simplify, 2)
  {
    NoHitStep(k, teams, simplify, 0);
    NoHitStep(k, teams, simplify, 1);
  }

  /** One more stage that rejects the only team. */
  lemma MissAt(k: Keys, t: Team, simplify: string -> string, n: nat, st: Stage)
    requires n < |Cascade| && Cascade[n] == st && NoHitBefore(k, [t], simplify, n)
    requires !Accepts(k, st, t, simplify)
    ensures NoHitBefore(k, [t], simplify, n + 1)
  {
    NoHitStep(k, [t], simplify, n);
  }

  /** Without ids, a team whose name the three name comparisons reject reaches the last stage. */
  lemma OnlyLastStageLeft(k: Keys, t: Team, simplify: string -> string)
    requires !Truthy(k.externalId) && k.kboId.None?
    requires !NameAccepts(ByExactName, k.clean, k.normalized, t.name, simplify)
    requires !NameAccepts(ByNameIgnoringCase, k.clean, k.normalized, t.name, simplify)
    requires !NameAccepts(ByNormalizedName, k.clean, k.normalized, t.name, simplify)
    ensures NoHitBefore(k, [t], simplify, 5)
  {
    IdStagesMiss(k, [t], simplify);
    MissAt(k, t, simplify, 2, ByExactName);
    MissAt(k, t, simplify, 3, ByNameIgnoringCase);
    MissAt(k, t, simplify, 4, ByNormalizedName);
  }
}
