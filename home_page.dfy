/**
 * The home page's follow list: loading the followed teams of a signed-in
 * member, and toggling a team optimistically, then calling the follow API and
 * undoing the local change when that call fails.
 */
module HomePage {
  import opened Wrappers
  import opened SyncDomain
  import opened Filtering
  import opened FrontTypes
  import opened MainCalendar

  /** The list without every team of the given id, the others in their order. */
  function WithoutTeam(teams: seq<FrontTeam>, id: string): (r: seq<FrontTeam>)
    ensures forall t :: t in r <==> t in teams && t.id != id
    ensures !HasTeamId(r, id)
  {
    Filter(teams, OtherThan(id))
  }

  function OtherThan(id: string): FrontTeam -> bool {
    (t: FrontTeam) => t.id != id
  }

  /** Removal keeps order: it commutes with appending one more team. */
  lemma WithoutTeamSnoc(teams: seq<FrontTeam>, x: FrontTeam, id: string)
    ensures WithoutTeam(teams + [x], id) == WithoutTeam(teams, id) + (if x.id != id then [x] else [])
  {
    FilterSnoc(teams, x, OtherThan(id));
  }

  /** The optimistic update: drop a followed team, or append one not followed. */
  function Optimistic(teams: seq<FrontTeam>, team: FrontTeam): seq<FrontTeam> {
    if ActiveTeam(teams, team.id).Some? then WithoutTeam(teams, team.id) else teams + [team]
  }

  /** The rollback after a failed API call, applied to the list as it then stands. */
  function Rollback(current: seq<FrontTeam>, team: FrontTeam, wasFollowed: bool): seq<FrontTeam> {
    if wasFollowed then current + [team] else WithoutTeam(current, team.id)
  }

  /** The list after `toggleTeam`, given whether the API call was made and failed. */
  function AfterToggle(teams: seq<FrontTeam>, team: FrontTeam, failed: bool): seq<FrontTeam> {
    var optimistic := Optimistic(teams, team);
    if failed then Rollback(optimistic, team, ActiveTeam(teams, team.id).Some?) else optimistic
  }

  /** Membership of the toggled id flips. */
  lemma OptimisticFlips(teams: seq<FrontTeam>, team: FrontTeam)
    ensures HasTeamId(Optimistic(teams, team), team.id) <==> !HasTeamId(teams, team.id)
  {
    var r := Optimistic(teams, team);
    if !HasTeamId(teams, team.id) {
      assert r[|teams|] == team;
    }
  }

  /** Every team of another id is in the list after the update iff it was before. */
  lemma OptimisticKeepsOthers(teams: seq<FrontTeam>, team: FrontTeam, t: FrontTeam)
    requires t.id != team.id
    ensures t in Optimistic(teams, team) <==> t in teams
  {
  }

  /**
   * A team not followed goes to the end, after the list unchanged; a followed
   * one leaves with every entry of its id, the rest keeping their order.
   */
  lemma OptimisticPlacement(teams: seq<FrontTeam>, team: FrontTeam, before: seq<FrontTeam>, x: FrontTeam)
    ensures !HasTeamId(teams, team.id) ==>
      var r := Optimistic(teams, team);
      |r| == |teams| + 1 && r[..|teams|] == teams && r[|teams|] == team
    ensures teams == before + [x] && HasTeamId(teams, team.id) ==>
      Optimistic(teams, team) == WithoutTeam(before, team.id) + (if x.id != team.id then [x] else [])
  {
    if teams == before + [x] && HasTeamId(teams, team.id) {
      WithoutTeamSnoc(before, x, team.id);
    }
  }

  /**
   * When the call fails, the toggled id's membership is what it was; a team
   * that was followed comes back at the end rather than at its old place.
   */
  lemma FailureRestoresMembership(teams: seq<FrontTeam>, team: FrontTeam)
    ensures HasTeamId(AfterToggle(teams, team, true), team.id) <==> HasTeamId(teams, team.id)
    ensures HasTeamId(teams, team.id) ==>
      var r := AfterToggle(teams, team, true);
      |r| > 0 && r[|r| - 1] == team && r[..|r| - 1] == WithoutTeam(teams, team.id)
  {
    var r := AfterToggle(teams, team, true);
    if HasTeamId(teams, team.id) {
      assert r[|r| - 1] == team;
    } else {
      OptimisticFlips(teams, team);
    }
  }

  /** Toggling a team that is not followed twice, with both calls succeeding, leaves the list as it was. */
  lemma ToggleTwiceRestores(teams: seq<FrontTeam>, team: FrontTeam)
    requires !HasTeamId(teams, team.id)
    ensures AfterToggle(AfterToggle(teams, team, false), team, false) == teams
  {
    var once := teams + [team];
    assert once[|teams|] == team;
    WithoutTeamSnoc(teams, team, team.id);
    NothingToRemove(teams, team.id);
  }

  lemma {:induction false} NothingToRemove(teams: seq<FrontTeam>, id: string)
    requires !HasTeamId(teams, id)
    ensures WithoutTeam(teams, id) == teams
    decreases |teams|
  {
    if teams != [] {
      assert !HasTeamId(teams[1..], id) by {
        forall k | 0 <= k < |teams[1..]| ensures teams[1..][k].id != id {
          assert teams[1..][k] == teams[k + 1];
        }
      }
      NothingToRemove(teams[1..], id);
      assert teams == [teams[0]] + teams[1..];
    }
  }

  // ---------------------------------------------------------------------------
  // Loading the followed teams
  // ---------------------------------------------------------------------------

  /**
   * The mapping of a followed team record as the page writes it: no logo, the
   * logo URL when non-empty, red and black colour defaults, the league's
   * category or `Sports`; the league id is not carried over.
   */
  function FormatFollowedTeamAsWritten(t: TeamResponse): (r: FrontTeam)
    ensures r.id == t.id && r.name == t.name && r.logo == ""
    ensures r.mainColor == (if Truthy(t.primaryColor) then t.primaryColor.value else "#ff4655")
    ensures r.subColor == (if Truthy(t.secondaryColor) then t.secondaryColor.value else "#000000")
    ensures r.logoUrl.Some? <==> Truthy(t.logoUrl)
    ensures r.leagueId.None?
  {
    FrontTeam(
      t.id, t.name, "",
      if Truthy(t.logoUrl) then t.logoUrl else None,
      OrElse(t.primaryColor, "#ff4655"),
      OrElse(t.secondaryColor, "#000000"),
      None,
      Some(SportOf(t)))
  }

  /** `leagues?.category || 'Sports'`. */
  function SportOf(t: TeamResponse): string {
    match t.leagues
    case Some(l) => OrElse(l.category, "Sports")
    case None => "Sports"
  }

  /** The same mapping, carrying the record's league id as the calendar's race filter expects. */
  function FormatFollowedTeam(t: TeamResponse): (r: FrontTeam)
    ensures r.id == t.id && r.name == t.name && r.logo == ""
    ensures r.mainColor == (if Truthy(t.primaryColor) then t.primaryColor.value else "#ff4655")
    ensures r.subColor == (if Truthy(t.secondaryColor) then t.secondaryColor.value else "#000000")
    ensures r.logoUrl.Some? <==> Truthy(t.logoUrl)
    ensures r.leagueId == t.leagueId
  {
    FormatFollowedTeamAsWritten(t).(leagueId := t.leagueId)
  }

  function FormatAll(records: seq<TeamResponse>, format: TeamResponse -> FrontTeam): (r: seq<FrontTeam>)
    ensures |r| == |records|
    ensures forall i :: 0 <= i < |records| ==> r[i] == format(records[i])
  {
    seq(|records|, i requires 0 <= i < |records| => format(records[i]))
  }

  /**
   * As written, a race that carries a league is never shown for teams loaded
   * from the follow API, whichever teams they are.
   */
  lemma LoadedTeamsHideRaces(records: seq<TeamResponse>, e: CalendarEvent)
    requires e.kind == Race && e.league.Some?
    ensures !FollowKeeps(FormatAll(records, FormatFollowedTeamAsWritten), e)
  {
  }

  /**
   * With the league id carried over, a race is shown for loaded teams iff one
   * of them belongs to the race's league.
   */
  lemma LoadedTeamsShowTheirRaces(records: seq<TeamResponse>, e: CalendarEvent)
    requires e.kind == Race
    ensures FollowKeeps(FormatAll(records, FormatFollowedTeam), e) <==>
      exists k :: 0 <= k < |records| && records[k].leagueId == LeagueIdOf(e)
  {
    var teams := FormatAll(records, FormatFollowedTeam);
    if exists k :: 0 <= k < |records| && records[k].leagueId == LeagueIdOf(e) {
      var k :| 0 <= k < |records| && records[k].leagueId == LeagueIdOf(e);
      assert teams[k].leagueId == LeagueIdOf(e);
    }
  }

  // ---------------------------------------------------------------------------
  // The page state
  // ---------------------------------------------------------------------------

  class Home {
    var myTeams: seq<FrontTeam>
    /**
     * How a followed-team record becomes a team of the list:
     * `FormatFollowedTeamAsWritten` is the page as written.
     */
    const format: TeamResponse -> FrontTeam

    constructor(format: TeamResponse -> FrontTeam)
      ensures myTeams == [] && this.format == format
    {
      myTeams := [];
      this.format := format;
    }

    /**
     * The initial load: for a signed-in member whose follow list arrives, the
     * list becomes the formatted records in order; otherwise it stays as it is.
     */
    method LoadFollows(loggedIn: bool, uid: Option<string>, fetched: Fetch<seq<TeamResponse>>)
      modifies this
      ensures loggedIn && Truthy(uid) && fetched.Fetched? ==> myTeams == FormatAll(fetched.data, format)
      ensures !(loggedIn && Truthy(uid) && fetched.Fetched?) ==> myTeams == old(myTeams)
    {
      if loggedIn && Truthy(uid) {
        match fetched {
          case Fetched(records) =>
            myTeams := FormatAll(records, format);
          case FetchFailed(_) =>
        }
      }
    }

    /**
     * `toggleTeam`: the optimistic update, then, for a signed-in member, the
     * API call, whose failure undoes the membership change. The call is made
     * iff the member is signed in with a uid.
     */
    method ToggleTeam(team: FrontTeam, loggedIn: bool, uid: Option<string>, apiSucceeds: bool) returns (apiCalled: bool)
      modifies this
      ensures apiCalled <==> loggedIn && Truthy(uid)
      ensures myTeams == AfterToggle(old(myTeams), team, apiCalled && !apiSucceeds)
      ensures !(apiCalled && !apiSucceeds) ==> (HasTeamId(myTeams, team.id) <==> !HasTeamId(old(myTeams), team.id))
      ensures apiCalled && !apiSucceeds ==> (HasTeamId(myTeams, team.id) <==> HasTeamId(old(myTeams), team.id))
      ensures forall t: FrontTeam :: t.id != team.id ==> (t in myTeams <==> t in old(myTeams))
    {
      var wasFollowed := ActiveTeam(myTeams, team.id).Some?;
      OptimisticFlips(myTeams, team);
      FailureRestoresMembership(myTeams, team);
      if wasFollowed {
        myTeams := WithoutTeam(myTeams, team.id);
      } else {
        myTeams := myTeams + [team];
      }
      apiCalled := loggedIn && Truthy(uid);
      if apiCalled && !apiSucceeds {
        if wasFollowed {
          myTeams := myTeams + [team];
        } else {
          myTeams := WithoutTeam(myTeams, team.id);
        }
      }
    }
  }
}
