/**
 * The team picker's grouping of the teams API's records into sports, each
 * with its leagues, each with its teams; the sport icons; and the initial
 * selection of the first sport and its first league.
 */
module TeamSelector {
  import opened Wrappers
  import opened SyncDomain
  import opened Text
  import opened FrontTypes

  datatype LeagueGroup = LeagueGroup(id: string, name: string, teams: seq<FrontTeam>)

  datatype Sport = Sport(id: string, name: string, icon: string, leagues: seq<LeagueGroup>)

  // ---------------------------------------------------------------------------
  // Sport icons
  // ---------------------------------------------------------------------------

  /** The trophy emoji: the team logo, and the icon of a sport without one of its own. */
  const Trophy: string := "\U{1F3C6}"

  /** The English half of the icon table. */
  const EnglishIcons: seq<(string, string)> := [
    ("soccer", "\U{26BD}"),
    ("baseball", "\U{26BE}"),
    ("basketball", "\U{1F3C0}"),
    ("motorsport", "\U{1F3CE}\U{FE0F}"),
    ("esports", "\U{1F3AE}"),
    ("football", "\U{1F3C8}"),
    ("hockey", "\U{1F3D2}")
  ]

  /** The Korean half: the same seven sports by their Korean names. */
  const KoreanIcons: seq<(string, string)> := [
    ("\U{CD95}\U{AD6C}", "\U{26BD}"),
    ("\U{C57C}\U{AD6C}", "\U{26BE}"),
    ("\U{B18D}\U{AD6C}", "\U{1F3C0}"),
    ("\U{BAA8}\U{D130}\U{C2A4}\U{D3EC}\U{CE20}", "\U{1F3CE}\U{FE0F}"),
    ("e\U{C2A4}\U{D3EC}\U{CE20}", "\U{1F3AE}"),
    ("\U{BBF8}\U{C2DD}\U{CD95}\U{AD6C}", "\U{1F3C8}"),
    ("\U{C544}\U{C774}\U{C2A4}\U{D558}\U{D0A4}", "\U{1F3D2}")
  ]

  const IconTable: seq<(string, string)> := EnglishIcons + KoreanIcons

  /** `table[key]`: the value of the first entry with that key, `undefined` when there is none. */
  function Lookup(table: seq<(string, string)>, key: string): Option<string>
    decreases |table|
  {
    if table == [] then None
    else if table[0].0 == key then Some(table[0].1)
    else Lookup(table[1..], key)
  }

  /** A lookup finds an entry of the key iff the table has one. */
  lemma {:induction false} LookupFinds(table: seq<(string, string)>, key: string)
    ensures Lookup(table, key).None? <==> forall k :: 0 <= k < |table| ==> table[k].0 != key
    ensures Lookup(table, key).Some? ==> (key, Lookup(table, key).value) in table
    decreases |table|
  {
    if table != [] && table[0].0 != key {
      LookupFinds(table[1..], key);
      assert forall k :: 1 <= k < |table| ==> table[k] == table[1..][k - 1];
    }
  }

  /** `iconMap[name.toLowerCase()] || iconMap[name] || '🏆'`. */
  function SportIcon(name: string): string {
    var folded := Lookup(IconTable, Lower(name));
    if folded.Some? && folded.value != "" then folded.value
    else
      var exact := Lookup(IconTable, name);
      if exact.Some? && exact.value != "" then exact.value else Trophy
  }

  predicate NoUpper(s: string) {
    forall k :: 0 <= k < |s| ==> !('A' <= s[k] <= 'Z')
  }

  lemma EnglishEntry(k: nat)
    requires k < |EnglishIcons|
    ensures NoUpper(EnglishIcons[k].0) && EnglishIcons[k].1 != ""
  {
  }

  lemma KoreanEntry(k: nat)
    requires k < |KoreanIcons|
    ensures NoUpper(KoreanIcons[k].0) && KoreanIcons[k].1 != ""
  {
  }

  /** Every key of the table is already in lower case, and every icon is non-empty. */
  lemma TableEntry(e: (string, string))
    requires e in IconTable
    ensures Lower(e.0) == e.0 && e.1 != ""
  {
    var i :| 0 <= i < |IconTable| && IconTable[i] == e;
    if i < |EnglishIcons| {
      EnglishEntry(i);
    } else {
      KoreanEntry(i - |EnglishIcons|);
    }
  }

  /**
   * The exact lookup never decides: a name is a key only when its lower case
   * is, so the icon is the folded name's entry, or the trophy.
   */
  lemma IconByFoldedName(name: string)
    ensures Lookup(IconTable, Lower(name)).Some? ==> SportIcon(name) == Lookup(IconTable, Lower(name)).value
    ensures Lookup(IconTable, Lower(name)).None? ==> SportIcon(name) == Trophy
  {
    var folded := Lookup(IconTable, Lower(name));
    var exact := Lookup(IconTable, name);
    LookupFinds(IconTable, Lower(name));
    LookupFinds(IconTable, name);
    if folded.Some? {
      TableEntry((Lower(name), folded.value));
    }
    if exact.Some? {
      TableEntry((name, exact.value));
    }
  }

  /** Case does not matter: `Soccer` and `SOCCER` get the football icon. */
  lemma SoccerIcon()
    ensures SportIcon("Soccer") == "\U{26BD}" && SportIcon("SOCCER") == "\U{26BD}"
  {
    assert Lower("Soccer") == "soccer";
    assert Lower("SOCCER") == "soccer";
  }

  // ---------------------------------------------------------------------------
  // One team record
  // ---------------------------------------------------------------------------

  /** Records without a league id or without a joined league are skipped. */
  predicate Kept(t: TeamResponse) {
    Truthy(t.leagueId) && t.leagues.Some?
  }

  /** `leagues.category || 'Other'`. */
  function SportName(t: TeamResponse): string
    requires Kept(t)
  {
    OrElse(t.leagues.value.category, "Other")
  }

  /** `.replace(/\s+/g, '-')`: each maximal run of white space becomes one dash. */
  function DashRuns(s: string): string
    decreases |s|
  {
    if s == [] then []
    else if IsWhitespace(s[0]) then "-" + DashRuns(TrimStart(s))
    else [s[0]] + DashRuns(s[1..])
  }

  predicate NoWhitespace(s: string) {
    forall k :: 0 <= k < |s| ==> !IsWhitespace(s[k])
  }

  /** No white space is left: every run became a dash. */
  lemma {:induction false} DashRunsNoWhitespace(s: string)
    ensures NoWhitespace(DashRuns(s))
    decreases |s|
  {
    if s != [] {
      var rest := if IsWhitespace(s[0]) then TrimStart(s) else s[1..];
      DashRunsNoWhitespace(rest);
      assert DashRuns(s) == [DashRuns(s)[0]] + DashRuns(rest);
    }
  }

  /** Every character of the result is a dash or one of the input's. */
  lemma {:induction false} DashRunsChars(s: string)
    ensures forall c :: c in DashRuns(s) ==> c == '-' || c in s
    decreases |s|
  {
    if s != [] {
      var rest := if IsWhitespace(s[0]) then TrimStart(s) else s[1..];
      DashRunsChars(rest);
      assert forall c :: c in rest ==> c in s;
      assert DashRuns(s) == [DashRuns(s)[0]] + DashRuns(rest);
    }
  }

  /** A text without white space is left as it is. */
  lemma {:induction false} DashRunsKeepsPlainText(s: string)
    requires NoWhitespace(s)
    ensures DashRuns(s) == s
    decreases |s|
  {
    if s != [] {
      assert NoWhitespace(s[1..]);
      DashRunsKeepsPlainText(s[1..]);
    }
  }

  /** The sport id of a category name: lower case, white-space runs as dashes. */
  function SportIdOf(name: string): string {
    DashRuns(Lower(name))
  }

  /**
   * A sport id has no white space and no upper-case letter, and is its own
   * sport id.
   */
  lemma SportIdIsFixedPoint(name: string)
    ensures NoWhitespace(SportIdOf(name)) && NoUpper(SportIdOf(name))
    ensures SportIdOf(SportIdOf(name)) == SportIdOf(name)
  {
    var id := SportIdOf(name);
    LowerIdempotent(name);
    DashRunsNoWhitespace(Lower(name));
    DashRunsChars(Lower(name));
    assert forall c :: c in Lower(name) ==> !('A' <= c <= 'Z');
    assert NoUpper(id) by {
      forall k | 0 <= k < |id| ensures !('A' <= id[k] <= 'Z') {
        assert id[k] in id;
      }
    }
    assert Lower(id) == id;
    DashRunsKeepsPlainText(id);
  }

  function SportOf(t: TeamResponse): string
    requires Kept(t)
  {
    SportIdOf(SportName(t))
  }

  /** The picker's team of a record: the trophy logo, white and black colour defaults, its league id. */
  function SelectorTeam(t: TeamResponse): (r: FrontTeam)
    requires Kept(t)
    ensures r.id == t.id && r.name == t.name && r.logo == Trophy && r.logoUrl == t.logoUrl
    ensures r.mainColor == (if Truthy(t.primaryColor) then t.primaryColor.value else "#FFFFFF")
    ensures r.subColor == (if Truthy(t.secondaryColor) then t.secondaryColor.value else "#000000")
    ensures r.leagueId == t.leagueId
  {
    FrontTeam(t.id, t.name, Trophy, t.logoUrl,
              OrElse(t.primaryColor, "#FFFFFF"), OrElse(t.secondaryColor, "#000000"),
              t.leagueId, None)
  }

  // ---------------------------------------------------------------------------
  // The grouping, one record at a time
  // ---------------------------------------------------------------------------

  /** What the walk takes from a kept record: its sport, its league and its picker team. */
  datatype Entry = Entry(sportId: string, sportName: string, leagueId: string, leagueName: string, team: FrontTeam)

  /** The entry of a record; a skipped record has none. */
  function EntryOf(t: TeamResponse): (r: Option<Entry>)
    ensures r.Some? <==> Kept(t)
    ensures r.Some? ==> r.value.sportId == SportOf(t) && r.value.leagueId == t.leagueId.value && r.value.team == SelectorTeam(t)
  {
    if !Kept(t) then None
    else
      var name := SportName(t);
      Some(Entry(SportIdOf(name), name, t.leagueId.value, t.leagues.value.name, SelectorTeam(t)))
  }

  /** The position of the sport of that id, or the length when there is none. */
  function SportIndex(sports: seq<Sport>, id: string): (r: nat)
    ensures r <= |sports|
    ensures r < |sports| ==> sports[r].id == id
    ensures forall k :: 0 <= k < r ==> sports[k].id != id
    decreases |sports|
  {
    if sports == [] then 0 else if sports[0].id == id then 0 else 1 + SportIndex(sports[1..], id)
  }

  /** The position of the league of that id, or the length when there is none. */
  function LeagueIndex(leagues: seq<LeagueGroup>, id: string): (r: nat)
    ensures r <= |leagues|
    ensures r < |leagues| ==> leagues[r].id == id
    ensures forall k :: 0 <= k < r ==> leagues[k].id != id
    decreases |leagues|
  {
    if leagues == [] then 0 else if leagues[0].id == id then 0 else 1 + LeagueIndex(leagues[1..], id)
  }

  /** The entry's team pushed onto its league, the league created at the end when new. */
  function AddToLeagues(leagues: seq<LeagueGroup>, e: Entry): seq<LeagueGroup> {
    var li := LeagueIndex(leagues, e.leagueId);
    var league := if li < |leagues| then leagues[li] else LeagueGroup(e.leagueId, e.leagueName, []);
    var grown := league.(teams := league.teams + [e.team]);
    if li < |leagues| then leagues[li := grown] else leagues + [grown]
  }

  /** The entry added to its sport, the sport created at the end when new. */
  function AddEntry(sports: seq<Sport>, e: Entry): seq<Sport> {
    var si := SportIndex(sports, e.sportId);
    var sport := if si < |sports| then sports[si] else Sport(e.sportId, e.sportName, SportIcon(e.sportName), []);
    var grown := sport.(leagues := AddToLeagues(sport.leagues, e));
    if si < |sports| then sports[si := grown] else sports + [grown]
  }

  /** One step of the `forEach`: a skipped record changes nothing. */
  function AddTeam(sports: seq<Sport>, t: TeamResponse): seq<Sport> {
    match EntryOf(t)
    case None => sports
    case Some(e) => AddEntry(sports, e)
  }

  /** The sports after walking the records in order. */
  function Group(teams: seq<TeamResponse>): seq<Sport>
    decreases |teams|
  {
    if teams == [] then [] else AddTeam(Group(teams[..|teams| - 1]), teams[|teams| - 1])
  }

  // ---------------------------------------------------------------------------
  // The reference description of the grouping
  // ---------------------------------------------------------------------------

  /** The elements in order of first occurrence, each once. */
  function Dedup(s: seq<string>): (r: seq<string>)
    ensures forall x :: x in r <==> x in s
    ensures forall i, j :: 0 <= i < j < |r| ==> r[i] != r[j]
    decreases |s|
  {
    if s == [] then []
    else
      var d := Dedup(s[..|s| - 1]);
      assert forall x :: x in s <==> x in s[..|s| - 1] || x == s[|s| - 1];
      if s[|s| - 1] in d then d else d + [s[|s| - 1]]
  }

  /** The entries of the kept records, in input order. */
  function KeptEntries(teams: seq<TeamResponse>): seq<Entry>
    decreases |teams|
  {
    if teams == [] then []
    else
      var t := teams[|teams| - 1];
      KeptEntries(teams[..|teams| - 1]) + (match EntryOf(t) case Some(e) => [e] case None => [])
  }

  /** The sport id of every entry, in order. */
  function SportIdsOf(es: seq<Entry>): (r: seq<string>)
    ensures |r| == |es| && forall k :: 0 <= k < |es| ==> r[k] == es[k].sportId
  {
    seq(|es|, k requires 0 <= k < |es| => es[k].sportId)
  }

  /** The league id of every entry of the sport, in order. */
  function LeagueIdsFor(es: seq<Entry>, sid: string): seq<string>
    decreases |es|
  {
    if es == [] then []
    else
      var e := es[|es| - 1];
      LeagueIdsFor(es[..|es| - 1], sid) + (if e.sportId == sid then [e.leagueId] else [])
  }

  /** The team of every entry of the sport and league, in order. */
  function TeamsFor(es: seq<Entry>, sid: string, lid: string): seq<FrontTeam>
    decreases |es|
  {
    if es == [] then []
    else
      var e := es[|es| - 1];
      TeamsFor(es[..|es| - 1], sid, lid) + (if e.sportId == sid && e.leagueId == lid then [e.team] else [])
  }

  function SportIds(sports: seq<Sport>): (r: seq<string>)
    ensures |r| == |sports| && forall k :: 0 <= k < |sports| ==> r[k] == sports[k].id
  {
    seq(|sports|, k requires 0 <= k < |sports| => sports[k].id)
  }

  function LeagueIds(leagues: seq<LeagueGroup>): (r: seq<string>)
    ensures |r| == |leagues| && forall k :: 0 <= k < |leagues| ==> r[k] == leagues[k].id
  {
    seq(|leagues|, k requires 0 <= k < |leagues| => leagues[k].id)
  }

  /** A sport's leagues: one per league id of its entries, first seen first, each with its entries' teams in order. */
  ghost predicate LeaguesDescribe(leagues: seq<LeagueGroup>, es: seq<Entry>, sid: string) {
    && LeagueIds(leagues) == Dedup(LeagueIdsFor(es, sid))
    && forall j :: 0 <= j < |leagues| ==> leagues[j].teams == TeamsFor(es, sid, leagues[j].id)
  }

  /** The grouping described without the walk: sport ids first seen first, each sport's leagues as above. */
  ghost predicate Describes(sports: seq<Sport>, es: seq<Entry>) {
    && SportIds(sports) == Dedup(SportIdsOf(es))
    && forall k :: 0 <= k < |sports| ==> LeaguesDescribe(sports[k].leagues, es, sports[k].id)
  }

  // ---------------------------------------------------------------------------
  // The walk meets the description
  // ---------------------------------------------------------------------------

  lemma {:induction false} NoLeaguesOfUnseenSport(es: seq<Entry>, sid: string)
    requires sid !in SportIdsOf(es)
    ensures LeagueIdsFor(es, sid) == []
    decreases |es|
  {
    if es != [] {
      assert SportIdsOf(es[..|es| - 1]) == SportIdsOf(es)[..|es| - 1];
      NoLeaguesOfUnseenSport(es[..|es| - 1], sid);
      assert es[|es| - 1].sportId == SportIdsOf(es)[|es| - 1];
    }
  }

  lemma {:induction false} NoTeamsOfUnseenLeague(es: seq<Entry>, sid: string, lid: string)
    requires lid !in LeagueIdsFor(es, sid)
    ensures TeamsFor(es, sid, lid) == []
    decreases |es|
  {
    if es != [] {
      NoTeamsOfUnseenLeague(es[..|es| - 1], sid, lid);
    }
  }

  /** The reference lists grow by the new entry's items only. */
  lemma {:induction false} SportIdsSnoc(es: seq<Entry>, e: Entry)
    ensures SportIdsOf(es + [e]) == SportIdsOf(es) + [e.sportId]
  {
  }

  lemma {:induction false} LeagueIdsSnoc(es: seq<Entry>, e: Entry, sid: string)
    ensures LeagueIdsFor(es + [e], sid) == LeagueIdsFor(es, sid) + (if e.sportId == sid then [e.leagueId] else [])
  {
    assert (es + [e])[..|es|] == es;
  }

  lemma {:induction false} TeamsSnoc(es: seq<Entry>, e: Entry, sid: string, lid: string)
    ensures TeamsFor(es + [e], sid, lid) == TeamsFor(es, sid, lid) + (if e.sportId == sid && e.leagueId == lid then [e.team] else [])
  {
    assert (es + [e])[..|es|] == es;
  }

  /** Adding an entry of sport `sid` to that sport's leagues keeps them described. */
  lemma {:induction false} LeaguesStep(leagues: seq<LeagueGroup>, es: seq<Entry>, e: Entry)
    requires LeaguesDescribe(leagues, es, e.sportId)
    ensures LeaguesDescribe(AddToLeagues(leagues, e), es + [e], e.sportId)
  {
    var sid, lid := e.sportId, e.leagueId;
    var li := LeagueIndex(leagues, lid);
    var r := AddToLeagues(leagues, e);
    LeagueIdsSnoc(es, e, sid);
    var ids := Dedup(LeagueIdsFor(es, sid));
    if li < |leagues| {
      assert lid in ids by { assert LeagueIds(leagues)[li] == lid; }
      assert LeagueIds(r) == LeagueIds(leagues);
      forall j | 0 <= j < |r| ensures r[j].teams == TeamsFor(es + [e], sid, r[j].id) {
        TeamsSnoc(es, e, sid, r[j].id);
        if j != li {
          assert LeagueIds(leagues)[j] != LeagueIds(leagues)[li];
        }
      }
    } else {
      assert lid !in ids by {
        forall j | 0 <= j < |leagues| ensures LeagueIds(leagues)[j] != lid {
        }
      }
      NoTeamsOfUnseenLeague(es, sid, lid);
      assert LeagueIds(r) == LeagueIds(leagues) + [lid];
      forall j | 0 <= j < |r| ensures r[j].teams == TeamsFor(es + [e], sid, r[j].id) {
        TeamsSnoc(es, e, sid, r[j].id);
        if j < |leagues| {
          assert LeagueIds(leagues)[j] != lid;
        }
      }
    }
  }

  /** An entry of another sport leaves a sport's leagues described. */
  lemma {:induction false} LeaguesUntouched(leagues: seq<LeagueGroup>, es: seq<Entry>, e: Entry, sid: string)
    requires e.sportId != sid
    requires LeaguesDescribe(leagues, es, sid)
    ensures LeaguesDescribe(leagues, es + [e], sid)
  {
    LeagueIdsSnoc(es, e, sid);
    assert LeagueIdsFor(es + [e], sid) == LeagueIdsFor(es, sid) + [];
    assert LeagueIdsFor(es, sid) + [] == LeagueIdsFor(es, sid);
    forall j | 0 <= j < |leagues| ensures leagues[j].teams == TeamsFor(es + [e], sid, leagues[j].id) {
      TeamsSnoc(es, e, sid, leagues[j].id);
    }
  }

  /** One step of the walk keeps the description. */
  lemma {:induction false} EntryStep(sports: seq<Sport>, es: seq<Entry>, e: Entry)
    requires Describes(sports, es)
    ensures Describes(AddEntry(sports, e), es + [e])
  {
    SportIdsSnoc(es, e);
    if SportIndex(sports, e.sportId) < |sports| {
      StepIntoSport(sports, es, e);
    } else {
      StepNewSport(sports, es, e);
    }
  }

  lemma {:induction false} StepIntoSport(sports: seq<Sport>, es: seq<Entry>, e: Entry)
    requires Describes(sports, es) && SportIndex(sports, e.sportId) < |sports|
    ensures SportIds(AddEntry(sports, e)) == Dedup(SportIdsOf(es + [e]))
    ensures forall k :: 0 <= k < |sports| ==> LeaguesDescribe(AddEntry(sports, e)[k].leagues, es + [e], AddEntry(sports, e)[k].id)
  {
    var sid := e.sportId;
    var si := SportIndex(sports, sid);
    var r := AddEntry(sports, e);
    SportIdsSnoc(es, e);
    assert sid in Dedup(SportIdsOf(es)) by { assert SportIds(sports)[si] == sid; }
    assert r == sports[si := sports[si].(leagues := AddToLeagues(sports[si].leagues, e))];
    assert SportIds(r) == SportIds(sports);
    forall k | 0 <= k < |r| ensures LeaguesDescribe(r[k].leagues, es + [e], r[k].id) {
      if k == si {
        LeaguesStep(sports[si].leagues, es, e);
      } else {
        assert SportIds(sports)[k] != SportIds(sports)[si];
        LeaguesUntouched(sports[k].leagues, es, e, sports[k].id);
      }
    }
  }

  lemma {:induction false} StepNewSport(sports: seq<Sport>, es: seq<Entry>, e: Entry)
    requires Describes(sports, es) && SportIndex(sports, e.sportId) == |sports|
    ensures SportIds(AddEntry(sports, e)) == Dedup(SportIdsOf(es + [e]))
    ensures forall k :: 0 <= k < |sports| + 1 ==> LeaguesDescribe(AddEntry(sports, e)[k].leagues, es + [e], AddEntry(sports, e)[k].id)
  {
    var sid := e.sportId;
    var r := AddEntry(sports, e);
    SportIdsSnoc(es, e);
    assert r == sports + [Sport(sid, e.sportName, SportIcon(e.sportName), AddToLeagues([], e))];
    assert sid !in Dedup(SportIdsOf(es)) by {
      forall k | 0 <= k < |sports| ensures SportIds(sports)[k] != sid {
      }
    }
    assert SportIds(r) == SportIds(sports) + [sid];
    NewSportLeagues(es, e);
    forall k | 0 <= k < |sports| ensures LeaguesDescribe(r[k].leagues, es + [e], r[k].id) {
      assert r[k] == sports[k];
      LeaguesUntouched(sports[k].leagues, es, e, sports[k].id);
    }
  }

  /** The first entry of a sport not seen before opens that sport's one league. */
  lemma {:induction false} NewSportLeagues(es: seq<Entry>, e: Entry)
    requires e.sportId !in SportIdsOf(es)
    ensures LeaguesDescribe(AddToLeagues([], e), es + [e], e.sportId)
  {
    NoLeaguesOfUnseenSport(es, e.sportId);
    assert LeaguesDescribe([], es, e.sportId);
    LeaguesStep([], es, e);
  }

  /** The walk over all records meets the description of their entries. */
  lemma {:induction false} GroupDescribed(teams: seq<TeamResponse>)
    ensures Describes(Group(teams), KeptEntries(teams))
    decreases |teams|
  {
    if teams == [] {
      assert SportIds([]) == [];
      assert SportIdsOf([]) == [];
    } else {
      var init := teams[..|teams| - 1];
      var t := teams[|teams| - 1];
      GroupDescribed(init);
      match EntryOf(t)
      case None =>
        assert KeptEntries(teams) == KeptEntries(init);
      case Some(e) =>
        EntryStep(Group(init), KeptEntries(init), e);
        assert KeptEntries(teams) == KeptEntries(init) + [e];
    }
  }

  // ---------------------------------------------------------------------------
  // What the description says about the records
  // ---------------------------------------------------------------------------

  /** The first element of a non-empty list is the first one kept. */
  lemma {:induction false} DedupHead(s: seq<string>)
    requires s != []
    ensures Dedup(s) != [] && Dedup(s)[0] == s[0]
    decreases |s|
  {
    var init := s[..|s| - 1];
    if init != [] {
      DedupHead(init);
    }
  }

  /** The first entry of a sport gives that sport's first league id. */
  lemma {:induction false} LeagueIdsForHead(es: seq<Entry>, sid: string)
    requires es != [] && es[0].sportId == sid
    ensures LeagueIdsFor(es, sid) != [] && LeagueIdsFor(es, sid)[0] == es[0].leagueId
    decreases |es|
  {
    var init := es[..|es| - 1];
    if init != [] {
      LeagueIdsForHead(init, sid);
    }
  }

  /** With no record kept there are no entries. */
  lemma {:induction false} NoneKeptNoEntries(teams: seq<TeamResponse>)
    requires forall i :: 0 <= i < |teams| ==> !Kept(teams[i])
    ensures KeptEntries(teams) == []
    decreases |teams|
  {
    if teams != [] {
      NoneKeptNoEntries(teams[..|teams| - 1]);
    }
  }

  /** The entries start with the entry of the first kept record. */
  lemma {:induction false} FirstKeptEntry(teams: seq<TeamResponse>, i: nat)
    requires i < |teams| && Kept(teams[i])
    requires forall j :: 0 <= j < i ==> !Kept(teams[j])
    ensures KeptEntries(teams) != [] && Some(KeptEntries(teams)[0]) == EntryOf(teams[i])
    decreases |teams|
  {
    var init := teams[..|teams| - 1];
    if i == |teams| - 1 {
      NoneKeptNoEntries(init);
    } else {
      FirstKeptEntry(init, i);
    }
  }

  /** Every kept record has its entry among the entries. */
  lemma KeptRecordHasEntry(teams: seq<TeamResponse>, i: nat)
    requires i < |teams| && Kept(teams[i])
    ensures EntryOf(teams[i]).value in KeptEntries(teams)
  {
    EntryAmongKept(teams, i, EntryOf(teams[i]).value);
  }

  lemma {:induction false} EntryAmongKept(teams: seq<TeamResponse>, i: nat, e: Entry)
    requires i < |teams| && EntryOf(teams[i]) == Some(e)
    ensures e in KeptEntries(teams)
    decreases |teams|
  {
    var init := teams[..|teams| - 1];
    if i < |init| {
      assert teams[i] == init[i];
      EntryAmongKept(init, i, e);
      KeptEntriesGrow(teams);
    } else {
      assert teams[|teams| - 1] == teams[i];
      KeptEntriesLast(teams);
      assert KeptEntries(teams) == KeptEntries(init) + [e];
    }
  }

  /** The entries of all but the last record come first. */
  lemma KeptEntriesGrow(teams: seq<TeamResponse>)
    requires teams != []
    ensures forall x :: x in KeptEntries(teams[..|teams| - 1]) ==> x in KeptEntries(teams)
  {
    KeptEntriesLast(teams);
  }

  /** The last record adds its entry, if any, after those of the records before it. */
  lemma KeptEntriesLast(teams: seq<TeamResponse>)
    requires teams != []
    ensures var init, last := teams[..|teams| - 1], teams[|teams| - 1];
      && (EntryOf(last).None? ==> KeptEntries(teams) == KeptEntries(init))
      && (EntryOf(last).Some? ==> KeptEntries(teams) == KeptEntries(init) + [EntryOf(last).value])
  {
  }

  /** Every entry is the entry of some record. */
  lemma {:induction false} EntryHasRecord(teams: seq<TeamResponse>, e: Entry)
    requires e in KeptEntries(teams)
    ensures exists i :: 0 <= i < |teams| && EntryOf(teams[i]) == Some(e)
    decreases |teams|
  {
    var init := teams[..|teams| - 1];
    if e in KeptEntries(init) {
      EntryHasRecord(init, e);
      var i :| 0 <= i < |init| && EntryOf(init[i]) == Some(e);
      assert teams[i] == init[i];
    } else {
      assert EntryOf(teams[|teams| - 1]) == Some(e);
    }
  }

  /** The teams of a league are exactly the entries' teams of that sport and league. */
  lemma {:induction false} TeamsForMembers(es: seq<Entry>, sid: string, lid: string)
    ensures forall e :: e in es && e.sportId == sid && e.leagueId == lid ==> e.team in TeamsFor(es, sid, lid)
    ensures forall x :: x in TeamsFor(es, sid, lid) ==> exists e :: e in es && e.sportId == sid && e.leagueId == lid && e.team == x
    decreases |es|
  {
    if es != [] {
      var init := es[..|es| - 1];
      TeamsForMembers(init, sid, lid);
      assert es == init + [es[|es| - 1]];
    }
  }

  /**
   * The initial selection: the sport of the first kept record, and that
   * sport's first league, which is the record's league.
   */
  lemma {:induction false} SelectionIsFirstKept(teams: seq<TeamResponse>, i: nat)
    requires i < |teams| && Kept(teams[i])
    requires forall j :: 0 <= j < i ==> !Kept(teams[j])
    ensures var g := Group(teams);
      && g != [] && g[0].id == SportOf(teams[i])
      && g[0].leagues != [] && g[0].leagues[0].id == teams[i].leagueId.value
  {
    var g := Group(teams);
    var es := KeptEntries(teams);
    GroupDescribed(teams);
    FirstKeptEntry(teams, i);
    DedupHead(SportIdsOf(es));
    assert SportIds(g)[0] == es[0].sportId;
    LeagueIdsForHead(es, es[0].sportId);
    DedupHead(LeagueIdsFor(es, g[0].id));
    assert LeaguesDescribe(g[0].leagues, es, g[0].id);
    assert LeagueIds(g[0].leagues)[0] == es[0].leagueId;
  }

  /** No kept record, no sport: the selection is left as it was. */
  lemma {:induction false} NoneKeptNoSports(teams: seq<TeamResponse>)
    requires forall i :: 0 <= i < |teams| ==> !Kept(teams[i])
    ensures Group(teams) == []
  {
    GroupDescribed(teams);
    NoneKeptNoEntries(teams);
    assert |SportIds(Group(teams))| == 0;
  }

  /** Sport ids are distinct, and league ids are distinct within each sport. */
  lemma {:induction false} GroupIdsDistinct(teams: seq<TeamResponse>)
    ensures var g := Group(teams);
      && (forall k1, k2 :: 0 <= k1 < k2 < |g| ==> g[k1].id != g[k2].id)
      && (forall k, j1, j2 :: 0 <= k < |g| && 0 <= j1 < j2 < |g[k].leagues| ==> g[k].leagues[j1].id != g[k].leagues[j2].id)
  {
    var g := Group(teams);
    var es := KeptEntries(teams);
    GroupDescribed(teams);
    forall k1, k2 | 0 <= k1 < k2 < |g| ensures g[k1].id != g[k2].id {
      assert SportIds(g)[k1] != SportIds(g)[k2];
    }
    forall k, j1, j2 | 0 <= k < |g| && 0 <= j1 < j2 < |g[k].leagues| ensures g[k].leagues[j1].id != g[k].leagues[j2].id {
      assert LeaguesDescribe(g[k].leagues, es, g[k].id);
      assert LeagueIds(g[k].leagues)[j1] != LeagueIds(g[k].leagues)[j2];
    }
  }

  /** An entry's sport is among the described sports. */
  lemma {:induction false} EntrySportFound(sports: seq<Sport>, es: seq<Entry>, e: Entry)
    requires Describes(sports, es) && e in es
    ensures SportIndex(sports, e.sportId) < |sports|
  {
    var n :| 0 <= n < |es| && es[n] == e;
    assert SportIdsOf(es)[n] == e.sportId;
    assert e.sportId in SportIds(sports);
    var m :| 0 <= m < |sports| && SportIds(sports)[m] == e.sportId;
    assert sports[m].id == e.sportId;
  }

  /** An entry's league is among its sport's leagues, and its team among that league's teams. */
  lemma {:induction false} EntryLeagueFound(leagues: seq<LeagueGroup>, es: seq<Entry>, e: Entry)
    requires LeaguesDescribe(leagues, es, e.sportId) && e in es
    ensures var j := LeagueIndex(leagues, e.leagueId);
      && j < |leagues|
      && leagues[j].teams == TeamsFor(es, e.sportId, e.leagueId)
      && e.team in leagues[j].teams
  {
    LeagueIdsForMembers(es, e.sportId);
    TeamsForMembers(es, e.sportId, e.leagueId);
    var m :| 0 <= m < |leagues| && LeagueIds(leagues)[m] == e.leagueId;
    assert leagues[m].id == e.leagueId;
  }

  /**
   * A kept record's picker team is in the league of its league id within the
   * sport of its sport id, and that league holds the teams of exactly the
   * records of that sport and league, in input order.
   */
  lemma {:induction false} KeptRecordPlaced(teams: seq<TeamResponse>, i: nat)
    requires i < |teams| && Kept(teams[i])
    ensures var g := Group(teams);
      var k := SportIndex(g, SportOf(teams[i]));
      && k < |g|
      && var j := LeagueIndex(g[k].leagues, teams[i].leagueId.value);
      && j < |g[k].leagues|
      && SelectorTeam(teams[i]) in g[k].leagues[j].teams
      && g[k].leagues[j].teams == TeamsFor(KeptEntries(teams), SportOf(teams[i]), teams[i].leagueId.value)
  {
    var g := Group(teams);
    var es := KeptEntries(teams);
    var e := EntryOf(teams[i]).value;
    GroupDescribed(teams);
    KeptRecordHasEntry(teams, i);
    EntrySportFound(g, es, e);
    var k := SportIndex(g, e.sportId);
    EntryLeagueFound(g[k].leagues, es, e);
  }

  lemma {:induction false} LeagueIdsForMembers(es: seq<Entry>, sid: string)
    ensures forall e :: e in es && e.sportId == sid ==> e.leagueId in LeagueIdsFor(es, sid)
    decreases |es|
  {
    if es != [] {
      var init := es[..|es| - 1];
      LeagueIdsForMembers(init, sid);
      assert es == init + [es[|es| - 1]];
    }
  }

  /** Every team of a league carries that league's id. */
  lemma {:induction false} LeagueTeamsCarryTheirLeague(teams: seq<TeamResponse>)
    ensures var g := Group(teams);
      forall k, j, x :: 0 <= k < |g| && 0 <= j < |g[k].leagues| && x in g[k].leagues[j].teams ==>
        x.leagueId == Some(g[k].leagues[j].id)
  {
    var g := Group(teams);
    var es := KeptEntries(teams);
    GroupDescribed(teams);
    forall k, j, x | 0 <= k < |g| && 0 <= j < |g[k].leagues| && x in g[k].leagues[j].teams
      ensures x.leagueId == Some(g[k].leagues[j].id)
    {
      assert LeaguesDescribe(g[k].leagues, es, g[k].id);
      TeamsForMembers(es, g[k].id, g[k].leagues[j].id);
      var e :| e in es && e.sportId == g[k].id && e.leagueId == g[k].leagues[j].id && e.team == x;
      EntryHasRecord(teams, e);
      var i :| 0 <= i < |teams| && EntryOf(teams[i]) == Some(e);
    }
  }

  // ---------------------------------------------------------------------------
  // The picker's state
  // ---------------------------------------------------------------------------

  /**
   * The `forEach` callback on one record: a skipped record changes nothing;
   * otherwise the record's sport is created at the end when new, its league
   * likewise within the sport, and its picker team is pushed onto the league.
   */
  method PlaceTeam(sports: seq<Sport>, team: TeamResponse) returns (r: seq<Sport>)
    ensures r == AddTeam(sports, team)
  {
    r := sports;
    if !Truthy(team.leagueId) || team.leagues.None? {
      return;
    }
    var sportName := OrElse(team.leagues.value.category, "Other");
    var sportId := SportIdOf(sportName);
    var leagueId := team.leagueId.value;
    var si := SportIndex(r, sportId);
    if si == |r| {
      r := r + [Sport(sportId, sportName, SportIcon(sportName), [])];
    }
    var sport := r[si];
    ghost var e := Entry(sportId, sportName, leagueId, team.leagues.value.name, SelectorTeam(team));
    assert EntryOf(team) == Some(e);
    var leagues := PushTeam(sport.leagues, leagueId, team.leagues.value.name, SelectorTeam(team), e);
    assert r[si := sport.(leagues := leagues)] == AddEntry(sports, e);
    r := r[si := sport.(leagues := leagues)];
  }

  /** Within a sport: the league created at the end when new, then the team pushed onto it. */
  method PushTeam(leagues: seq<LeagueGroup>, leagueId: string, leagueName: string, t: FrontTeam, ghost e: Entry)
    returns (r: seq<LeagueGroup>)
    requires e.leagueId == leagueId && e.leagueName == leagueName && e.team == t
    ensures r == AddToLeagues(leagues, e)
  {
    r := leagues;
    var li := LeagueIndex(r, leagueId);
    if li == |r| {
      r := r + [LeagueGroup(leagueId, leagueName, [])];
    }
    var league := r[li];
    r := r[li := league.(teams := league.teams + [t])];
  }

  /** The `forEach` over the records. */
  method GroupTeams(teams: seq<TeamResponse>) returns (sports: seq<Sport>)
    ensures sports == Group(teams)
  {
    sports := [];
    var i := 0;
    while i < |teams|
      invariant 0 <= i <= |teams|
      invariant sports == Group(teams[..i])
    {
      sports := PlaceTeam(sports, teams[i]);
      assert teams[..i + 1][..i] == teams[..i];
      i := i + 1;
    }
    assert teams[..i] == teams;
  }

  /** The picker's loaded data and selection. */
  class Picker {
    var sportsData: seq<Sport>
    var isLoading: bool
    var error: string
    var selectedSportId: string
    var selectedLeagueId: string

    constructor()
      ensures sportsData == [] && isLoading && error == "" && selectedSportId == "" && selectedLeagueId == ""
    {
      sportsData := [];
      isLoading := true;
      error := "";
      selectedSportId := "";
      selectedLeagueId := "";
    }

    /**
     * `fetchTeams`: walk the records, creating each sport and league the
     * first time it is seen and pushing each kept record's team onto its
     * league; then select the first sport and its first league. A failed
     * fetch only sets the error. Loading ends either way.
     */
    method FetchTeams(fetched: Fetch<seq<TeamResponse>>)
      modifies this
      ensures !isLoading
      ensures fetched.FetchFailed? ==>
        && error == fetched.message && sportsData == old(sportsData)
        && selectedSportId == old(selectedSportId) && selectedLeagueId == old(selectedLeagueId)
      ensures fetched.Fetched? ==> sportsData == Group(fetched.data) && error == old(error)
      ensures fetched.Fetched? ==> Describes(sportsData, KeptEntries(fetched.data))
      ensures fetched.Fetched? ==>
        selectedSportId == (if sportsData != [] then sportsData[0].id else old(selectedSportId))
      ensures fetched.Fetched? ==>
        selectedLeagueId == (if sportsData != [] && sportsData[0].leagues != [] then sportsData[0].leagues[0].id else old(selectedLeagueId))
    {
      isLoading := true;
      match fetched {
        case FetchFailed(message) =>
          error := message;
        case Fetched(teams) =>
          var sports := GroupTeams(teams);
          GroupDescribed(teams);
          sportsData := sports;
          if |sports| > 0 {
            selectedSportId := sports[0].id;
            if |sports[0].leagues| > 0 {
              selectedLeagueId := sports[0].leagues[0].id;
            }
          }
      }
      isLoading := false;
    }
  }
}
