/**
 * The team queries and the follow toggle of the back end. The follows table
 * is a sequence of rows in storage order; the teams table is read-only here.
 */
module TeamsService {
  import opened Wrappers
  import opened SyncDomain
  import opened Sorting
  import opened TextOrder

  /** A row of the follows table: one member following one team. */
  datatype Follow = Follow(id: nat, memberUid: string, teamId: string)

  predicate IsFollowOf(f: Follow, member: string, teamId: string) {
    f.memberUid == member && f.teamId == teamId
  }

  /** `follows.findFirst({ where: { member_uid, team_id } })`: the index of the first such row. */
  function FindFollow(follows: seq<Follow>, member: string, teamId: string): (r: Option<nat>)
    ensures r.Some? ==> r.value < |follows| && IsFollowOf(follows[r.value], member, teamId)
    ensures r.Some? ==> forall k :: 0 <= k < r.value ==> !IsFollowOf(follows[k], member, teamId)
    ensures r.None? ==> forall k :: 0 <= k < |follows| ==> !IsFollowOf(follows[k], member, teamId)
    decreases |follows|
  {
    if follows == [] then None
    else if IsFollowOf(follows[0], member, teamId) then Some(0)
    else match FindFollow(follows[1..], member, teamId)
      case None => None
      case Some(k) => Some(k + 1)
  }

  /** Whether `member` follows `teamId`: the existence of a row is the relation. */
  predicate Following(follows: seq<Follow>, member: string, teamId: string) {
    FindFollow(follows, member, teamId).Some?
  }

  /** The first team row with that id. */
  function TeamById(teams: seq<Team>, id: string): (r: Option<Team>)
    ensures r.Some? ==> r.value in teams && r.value.id == id
    ensures r.None? ==> forall k :: 0 <= k < |teams| ==> teams[k].id != id
    decreases |teams|
  {
    if teams == [] then None
    else if teams[0].id == id then Some(teams[0])
    else TeamById(teams[1..], id)
  }

  /**
   * What the database keeps true of the follows table: row ids are distinct and
   * below the next id, one row at most per (member, team) pair, and every row
   * refers to a stored team.
   */
  ghost predicate TableInvariant(teams: seq<Team>, follows: seq<Follow>, nextId: nat) {
    && (forall k :: 0 <= k < |follows| ==> follows[k].id < nextId)
    && (forall i, j :: 0 <= i < j < |follows| ==> follows[i].id != follows[j].id)
    && (forall i, j :: 0 <= i < j < |follows| ==>
          !IsFollowOf(follows[j], follows[i].memberUid, follows[i].teamId))
    && (forall k :: 0 <= k < |follows| ==> TeamById(teams, follows[k].teamId).Some?)
  }

  // ---------------------------------------------------------------------------
  // toggleFollow
  // ---------------------------------------------------------------------------

  /** The answer of a toggle: the deleted row, the created row, or a create the team foreign key refuses. */
  datatype Outcome = Deleted(row: Follow) | Created(row: Follow) | Rejected

  datatype Toggle = Toggle(follows: seq<Follow>, nextId: nat, outcome: Outcome)

  /** `follows.delete({ where: { id } })`: the table without the row of that id. */
  function WithoutId(follows: seq<Follow>, id: nat): (r: seq<Follow>)
    ensures |r| <= |follows|
    ensures forall f :: f in r <==> f in follows && f.id != id
    decreases |follows|
  {
    if follows == [] then []
    else if follows[0].id == id then WithoutId(follows[1..], id)
    else [follows[0]] + WithoutId(follows[1..], id)
  }

  /**
   * `toggleFollow`: delete the found follow, or create one with a fresh id; a
   * create for a team that is not stored fails on the foreign key and changes
   * nothing.
   */
  function ToggleFollowSpec(teams: seq<Team>, follows: seq<Follow>, nextId: nat, member: string, teamId: string): Toggle {
    match FindFollow(follows, member, teamId)
    case Some(k) => Toggle(WithoutId(follows, follows[k].id), nextId, Deleted(follows[k]))
    case None =>
      if TeamById(teams, teamId).None? then Toggle(follows, nextId, Rejected)
      else
        var row := Follow(nextId, member, teamId);
        Toggle(follows + [row], nextId + 1, Created(row))
  }

  /** With distinct ids, deleting by the id of row `k` removes exactly row `k`. */
  lemma {:induction false} WithoutIdRemovesRow(follows: seq<Follow>, k: nat)
    requires k < |follows|
    requires forall i, j :: 0 <= i < j < |follows| ==> follows[i].id != follows[j].id
    ensures WithoutId(follows, follows[k].id) == follows[..k] + follows[k + 1..]
    decreases |follows|
  {
    var id := follows[k].id;
    var tail := follows[1..];
    if k == 0 {
      WithoutIdAbsent(tail, id);
    } else {
      assert follows[0].id != id;
      assert WithoutId(follows, id) == [follows[0]] + WithoutId(tail, id);
      forall i, j | 0 <= i < j < |tail| ensures tail[i].id != tail[j].id {
        assert tail[i] == follows[i + 1] && tail[j] == follows[j + 1];
      }
      WithoutIdRemovesRow(tail, k - 1);
      assert tail[k - 1] == follows[k];
      assert tail[..k - 1] == follows[1..k] && tail[k..] == follows[k + 1..];
      assert follows[..k] == [follows[0]] + follows[1..k];
    }
  }

  /** Deleting an id no row has changes nothing. */
  lemma {:induction false} WithoutIdAbsent(follows: seq<Follow>, id: nat)
    requires forall k :: 0 <= k < |follows| ==> follows[k].id != id
    ensures WithoutId(follows, id) == follows
    decreases |follows|
  {
    if follows != [] {
      WithoutIdAbsent(follows[1..], id);
      assert follows == [follows[0]] + follows[1..];
    }
  }

  /** Removing one row keeps whether any other (member, team) pair is followed. */
  lemma RemovalKeepsOtherPairs(follows: seq<Follow>, k: nat, member: string, teamId: string)
    requires k < |follows|
    requires !IsFollowOf(follows[k], member, teamId)
    ensures Following(follows[..k] + follows[k + 1..], member, teamId) == Following(follows, member, teamId)
  {
    var rest := follows[..k] + follows[k + 1..];
    if Following(follows, member, teamId) {
      var i := FindFollow(follows, member, teamId).value;
      var j := if i < k then i else i - 1;
      assert rest[j] == follows[i];
    }
    if Following(rest, member, teamId) {
      var j := FindFollow(rest, member, teamId).value;
      var i := if j < k then j else j + 1;
      assert rest[j] == follows[i];
    }
  }

  /** Appending one row keeps whether any other (member, team) pair is followed. */
  lemma AppendKeepsOtherPairs(follows: seq<Follow>, row: Follow, member: string, teamId: string)
    requires !IsFollowOf(row, member, teamId)
    ensures Following(follows + [row], member, teamId) == Following(follows, member, teamId)
  {
    var grown := follows + [row];
    if Following(follows, member, teamId) {
      var i := FindFollow(follows, member, teamId).value;
      assert grown[i] == follows[i];
    }
    if Following(grown, member, teamId) {
      var i := FindFollow(grown, member, teamId).value;
      assert i < |follows| && grown[i] == follows[i];
    }
  }

  /**
   * A toggle deletes the one row of the pair when there is one, and otherwise
   * creates exactly one row for a stored team: afterwards the pair is followed
   * iff it was not, unless the create was refused, which leaves the table as it
   * was.
   */
  lemma ToggleFlips(teams: seq<Team>, follows: seq<Follow>, nextId: nat, member: string, teamId: string)
    requires TableInvariant(teams, follows, nextId)
    ensures var t := ToggleFollowSpec(teams, follows, nextId, member, teamId);
      && (t.outcome.Rejected? <==> !Following(follows, member, teamId) && TeamById(teams, teamId).None?)
      && (t.outcome.Rejected? ==> t.follows == follows && t.nextId == nextId)
      && (!t.outcome.Rejected? ==> Following(t.follows, member, teamId) == !Following(follows, member, teamId))
      && (t.outcome.Created? ==> t.follows == follows + [Follow(nextId, member, teamId)])
      && (t.outcome.Deleted? ==> |t.follows| == |follows| - 1 && IsFollowOf(t.outcome.row, member, teamId))
  {
    match FindFollow(follows, member, teamId)
    case Some(k) =>
      WithoutIdRemovesRow(follows, k);
      PairGoneAfterRemoval(follows, k);
    case None =>
      if TeamById(teams, teamId).Some? {
        var grown := follows + [Follow(nextId, member, teamId)];
        assert IsFollowOf(grown[|follows|], member, teamId);
      }
  }

  /** A toggle leaves every other (member, team) pair as it was. */
  lemma ToggleKeepsOtherPairs(teams: seq<Team>, follows: seq<Follow>, nextId: nat, member: string, teamId: string,
                              otherMember: string, otherTeam: string)
    requires TableInvariant(teams, follows, nextId)
    requires otherMember != member || otherTeam != teamId
    ensures var t := ToggleFollowSpec(teams, follows, nextId, member, teamId);
      Following(t.follows, otherMember, otherTeam) == Following(follows, otherMember, otherTeam)
  {
    match FindFollow(follows, member, teamId)
    case Some(k) =>
      WithoutIdRemovesRow(follows, k);
      RemovalKeepsOtherPairs(follows, k, otherMember, otherTeam);
    case None =>
      if TeamById(teams, teamId).Some? {
        AppendKeepsOtherPairs(follows, Follow(nextId, member, teamId), otherMember, otherTeam);
      }
  }

  /** The table has no second row of the pair of row `k`, so removing row `k` leaves none. */
  lemma PairGoneAfterRemoval(follows: seq<Follow>, k: nat)
    requires k < |follows|
    requires forall i, j :: 0 <= i < j < |follows| ==>
      !IsFollowOf(follows[j], follows[i].memberUid, follows[i].teamId)
    ensures !Following(follows[..k] + follows[k + 1..], follows[k].memberUid, follows[k].teamId)
  {
    var rest := follows[..k] + follows[k + 1..];
    var f := follows[k];
    forall j | 0 <= j < |rest| ensures !IsFollowOf(rest[j], f.memberUid, f.teamId) {
      if j < k {
        assert rest[j] == follows[j];
      } else {
        assert rest[j] == follows[j + 1];
      }
    }
  }

  /** Removing a row keeps the table invariant. */
  lemma RemovalKeepsInvariant(teams: seq<Team>, follows: seq<Follow>, nextId: nat, k: nat)
    requires k < |follows|
    requires TableInvariant(teams, follows, nextId)
    ensures TableInvariant(teams, follows[..k] + follows[k + 1..], nextId)
  {
    var rest := follows[..k] + follows[k + 1..];
    forall i, j | 0 <= i < j < |rest|
      ensures rest[i].id != rest[j].id
      ensures !IsFollowOf(rest[j], rest[i].memberUid, rest[i].teamId)
    {
      var i' := if i < k then i else i + 1;
      var j' := if j < k then j else j + 1;
      assert rest[i] == follows[i'] && rest[j] == follows[j'] && i' < j';
    }
    forall m | 0 <= m < |rest| ensures rest[m].id < nextId && TeamById(teams, rest[m].teamId).Some? {
      var m' := if m < k then m else m + 1;
      assert rest[m] == follows[m'];
    }
  }

  /** Appending a row of a fresh id, for a pair not yet followed and a stored team, keeps the invariant. */
  lemma AppendKeepsInvariant(teams: seq<Team>, follows: seq<Follow>, nextId: nat, member: string, teamId: string)
    requires TableInvariant(teams, follows, nextId)
    requires !Following(follows, member, teamId) && TeamById(teams, teamId).Some?
    ensures TableInvariant(teams, follows + [Follow(nextId, member, teamId)], nextId + 1)
  {
    var grown := follows + [Follow(nextId, member, teamId)];
    forall i, j | 0 <= i < j < |grown|
      ensures grown[i].id != grown[j].id
      ensures !IsFollowOf(grown[j], grown[i].memberUid, grown[i].teamId)
    {
      assert grown[i] == follows[i];
      if j < |follows| {
        assert grown[j] == follows[j];
      }
    }
  }

  /** A toggle keeps the table invariant. */
  lemma TogglePreservesInvariant(teams: seq<Team>, follows: seq<Follow>, nextId: nat, member: string, teamId: string)
    requires TableInvariant(teams, follows, nextId)
    ensures var t := ToggleFollowSpec(teams, follows, nextId, member, teamId);
      TableInvariant(teams, t.follows, t.nextId)
  {
    match FindFollow(follows, member, teamId)
    case Some(k) =>
      WithoutIdRemovesRow(follows, k);
      RemovalKeepsInvariant(teams, follows, nextId, k);
    case None =>
      if TeamById(teams, teamId).Some? {
        AppendKeepsInvariant(teams, follows, nextId, member, teamId);
      }
  }

  /**
   * Two consecutive toggles of one pair restore whether the member follows the
   * team, and every other pair is untouched by both.
   */
  lemma ToggleTwiceRestores(teams: seq<Team>, follows: seq<Follow>, nextId: nat, member: string, teamId: string)
    requires TableInvariant(teams, follows, nextId)
    ensures var once := ToggleFollowSpec(teams, follows, nextId, member, teamId);
      var twice := ToggleFollowSpec(teams, once.follows, once.nextId, member, teamId);
      Following(twice.follows, member, teamId) == Following(follows, member, teamId)
  {
    var once := ToggleFollowSpec(teams, follows, nextId, member, teamId);
    ToggleFlips(teams, follows, nextId, member, teamId);
    TogglePreservesInvariant(teams, follows, nextId, member, teamId);
    ToggleFlips(teams, once.follows, once.nextId, member, teamId);
  }

  /** The service over the follows table; `toggleFollow` is its one write. */
  class TeamsStore {
    const teams: seq<Team>
    var follows: seq<Follow>
    var nextId: nat

    ghost predicate Valid()
      reads this
    {
      TableInvariant(teams, follows, nextId)
    }

    constructor(teams: seq<Team>)
      ensures this.teams == teams && follows == [] && nextId == 0
      ensures Valid()
    {
      this.teams := teams;
      follows := [];
      nextId := 0;
    }

    /** `toggleFollow(memberUid, teamId)`: the row it deleted or created, or the refused create. */
    method ToggleFollow(member: string, teamId: string) returns (outcome: Outcome)
      requires Valid()
      modifies this
      ensures Valid()
      ensures var t := ToggleFollowSpec(teams, old(follows), old(nextId), member, teamId);
        follows == t.follows && nextId == t.nextId && outcome == t.outcome
      ensures outcome.Rejected? || Following(follows, member, teamId) == !old(Following(follows, member, teamId))
    {
      TogglePreservesInvariant(teams, follows, nextId, member, teamId);
      ToggleFlips(teams, follows, nextId, member, teamId);
      var existing := FindFollow(follows, member, teamId);
      if existing.Some? {
        var row := follows[existing.value];
        follows := WithoutId(follows, row.id);
        outcome := Deleted(row);
      } else if TeamById(teams, teamId).None? {
        outcome := Rejected;
      } else {
        var row := Follow(nextId, member, teamId);
        follows := follows + [row];
        nextId := nextId + 1;
        outcome := Created(row);
      }
    }
  }

  // ---------------------------------------------------------------------------
  // getFollowedTeams and getTeamsByLeague
  // ---------------------------------------------------------------------------

  /** A team as `getFollowedTeams` returns it: the team row with `isFollowed` set. */
  datatype FollowedTeam = FollowedTeam(team: Team, isFollowed: bool)

  /** The member's follow rows, in storage order. */
  function FollowsOf(follows: seq<Follow>, member: string): (r: seq<Follow>)
    ensures forall f :: f in r <==> f in follows && f.memberUid == member
    decreases |follows|
  {
    if follows == [] then []
    else if follows[0].memberUid == member then [follows[0]] + FollowsOf(follows[1..], member)
    else FollowsOf(follows[1..], member)
  }

  /** `getFollowedTeams(memberUid)`: each of the member's follows mapped to its team, tagged as followed. */
  function FollowedTeams(teams: seq<Team>, follows: seq<Follow>, member: string): (r: seq<FollowedTeam>)
    requires forall k :: 0 <= k < |follows| ==> TeamById(teams, follows[k].teamId).Some?
    ensures |r| == |FollowsOf(follows, member)|
    ensures forall i :: 0 <= i < |r| ==> r[i].isFollowed && r[i].team in teams
    ensures forall i :: 0 <= i < |r| ==> r[i].team.id == FollowsOf(follows, member)[i].teamId
    decreases |follows|
  {
    if follows == [] then []
    else
      var rest := FollowedTeams(teams, follows[1..], member);
      if follows[0].memberUid == member then [FollowedTeam(TeamById(teams, follows[0].teamId).value, true)] + rest
      else rest
  }

  /** Every team in the member's followed list is one the member follows. */
  lemma FollowedTeamsAreFollowed(teams: seq<Team>, follows: seq<Follow>, member: string, i: nat)
    requires forall k :: 0 <= k < |follows| ==> TeamById(teams, follows[k].teamId).Some?
    requires i < |FollowedTeams(teams, follows, member)|
    ensures Following(follows, member, FollowedTeams(teams, follows, member)[i].team.id)
  {
    var mine := FollowsOf(follows, member);
    var f := mine[i];
    assert f in mine;
    var k :| 0 <= k < |follows| && follows[k] == f;
    assert IsFollowOf(follows[k], member, f.teamId);
  }

  /** Every team the member follows is in the member's followed list. */
  lemma FollowsAreFollowedTeams(teams: seq<Team>, follows: seq<Follow>, member: string, teamId: string)
    requires forall k :: 0 <= k < |follows| ==> TeamById(teams, follows[k].teamId).Some?
    requires Following(follows, member, teamId)
    ensures exists i :: 0 <= i < |FollowedTeams(teams, follows, member)| && FollowedTeams(teams, follows, member)[i].team.id == teamId
  {
    var mine := FollowsOf(follows, member);
    var k := FindFollow(follows, member, teamId).value;
    assert follows[k] in mine;
    var i :| 0 <= i < |mine| && mine[i] == follows[k];
    assert FollowedTeams(teams, follows, member)[i].team.id == teamId;
  }

  /** Team rows ordered by name; ties keep their storage order. */
  predicate NameLe(a: Team, b: Team) {
    LexLe(a.name, b.name)
  }

  lemma NameOrderIsTotalPreorder()
    ensures IsTotalPreorder(NameLe)
  {
    forall a: Team, b: Team ensures NameLe(a, b) || NameLe(b, a) {
      LexTotal(a.name, b.name);
    }
    forall a: Team, b: Team, c: Team | NameLe(a, b) && NameLe(b, c) ensures NameLe(a, c) {
      LexTrans(a.name, b.name, c.name);
    }
  }

  /** The team rows of one league, in storage order. */
  function InLeague(teams: seq<Team>, leagueId: string): (r: seq<Team>)
    ensures forall t :: t in r <==> t in teams && t.leagueId == leagueId
    ensures multiset(r) <= multiset(teams)
    decreases |teams|
  {
    if teams == [] then []
    else
      assert teams == [teams[0]] + teams[1..];
      if teams[0].leagueId == leagueId then [teams[0]] + InLeague(teams[1..], leagueId)
      else InLeague(teams[1..], leagueId)
  }

  /**
   * `getTeamsByLeague(leagueId)`: the league's teams ordered by name ascending;
   * each of them, with its multiplicity, and no other team.
   */
  function TeamsByLeague(teams: seq<Team>, leagueId: string): (r: seq<Team>)
    ensures multiset(r) == multiset(InLeague(teams, leagueId))
    ensures SortedBy(r, NameLe)
    ensures forall t :: t in r <==> t in teams && t.leagueId == leagueId
  {
    NameOrderIsTotalPreorder();
    var r := Sort(InLeague(teams, leagueId), NameLe);
    assert forall t :: t in r <==> t in multiset(r);
    r
  }
}
