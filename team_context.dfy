/** The team context (src/contexts/team-context.tsx): the selected team and the favourite
    teams the application shares between pages, and the browser storage they are saved to
    and restored from. Storage holds, under "selectedTeam", a team code and, under
    "favoriteTeams", the favourites list; the list is kept as the list itself rather than
    as its JSON text. */
module TeamContext {
  import opened Common
  import opened Types
  import opened Teams

  /** The favourites without any team of the given code, in order. */
  function WithoutCode(teams: seq<Team>, code: string): (r: seq<Team>)
    ensures IsSubsequence(r, teams)
    ensures forall t :: t in r <==> t in teams && t.code != code
    ensures forall t {:trigger multiset(r)[t]} ::
      multiset(r)[t] == if t.code != code then multiset(teams)[t] else 0
  {
    Filter(teams, (t: Team) => t.code != code)
  }

  /** Removing a code twice removes nothing more. */
  lemma WithoutCodeIdempotent(teams: seq<Team>, code: string)
    ensures WithoutCode(WithoutCode(teams, code), code) == WithoutCode(teams, code)
  {
    FilterAll(WithoutCode(teams, code), (t: Team) => t.code != code);
  }

  /** Removing a team's code right after adding it leaves the favourites as removing the code
      alone would, and as they were when no team of that code was there. */
  lemma RemoveUndoesAdd(teams: seq<Team>, team: Team)
    ensures WithoutCode(teams + [team], team.code) == WithoutCode(teams, team.code)
    ensures (forall i :: 0 <= i < |teams| ==> teams[i].code != team.code) ==>
      WithoutCode(teams + [team], team.code) == teams
  {
    var keep := (t: Team) => t.code != team.code;
    FilterAppend(teams, [team], keep);
    assert Filter([team], keep) == [];
    if forall i :: 0 <= i < |teams| ==> teams[i].code != team.code {
      FilterAll(teams, keep);
    }
  }

  /** The saved code selects a team exactly when it is non-empty and some directory team has
      it; that team is then the one with the code. */
  function RestoredTeam(saved: Option<string>): (r: Option<Team>)
    ensures r.Some? <==> saved.Some? && saved.value != "" && exists i :: 0 <= i < |TEAMS| && TEAMS[i].code == saved.value
    ensures r.Some? ==> r.value in TEAMS && r.value.code == saved.value
  {
    if saved.Some? && saved.value != "" then GetTeamByCode(saved.value) else None
  }

  /** `TeamProvider`: the shared state and its storage. */
  class TeamProvider {
    var selectedTeam: Team
    var favoriteTeams: seq<Team>
    var savedTeam: Option<string>
    var savedFavorites: Option<seq<Team>>

    /** The initial state: the first team of the directory selected, no favourites; storage
        as the browser holds it. */
    constructor(savedTeam: Option<string>, savedFavorites: Option<seq<Team>>)
      ensures selectedTeam == TEAMS[0] && favoriteTeams == []
      ensures this.savedTeam == savedTeam && this.savedFavorites == savedFavorites
    {
      selectedTeam := TEAMS[0];
      favoriteTeams := [];
      this.savedTeam := savedTeam;
      this.savedFavorites := savedFavorites;
    }

    /** The first effect: a saved code selects its directory team, an unknown or empty one
        changes nothing; saved favourites replace the favourites. Storage is unchanged. */
    method LoadSaved()
      modifies this
      ensures selectedTeam == (match RestoredTeam(savedTeam)
                               case Some(t) => t
                               case None => old(selectedTeam))
      ensures favoriteTeams == (match savedFavorites
                                case Some(f) => f
                                case None => old(favoriteTeams))
      ensures savedTeam == old(savedTeam) && savedFavorites == old(savedFavorites)
    {
      if savedTeam.Some? && savedTeam.value != "" {
        var team := GetTeamByCode(savedTeam.value);
        if team.Some? {
          selectedTeam := team.value;
        }
      }
      if savedFavorites.Some? {
        favoriteTeams := savedFavorites.value;
      }
    }

    /** `handleSetSelectedTeam`: selects the team and saves exactly its code. */
    method SetSelectedTeam(team: Team)
      modifies this
      ensures selectedTeam == team && savedTeam == Some(team.code)
      ensures favoriteTeams == old(favoriteTeams) && savedFavorites == old(savedFavorites)
    {
      selectedTeam := team;
      savedTeam := Some(team.code);
    }

    /** `addFavoriteTeam`: appends the team, even when it is already a favourite, and saves
        the new list. */
    method AddFavoriteTeam(team: Team)
      modifies this
      ensures favoriteTeams == old(favoriteTeams) + [team] && savedFavorites == Some(favoriteTeams)
      ensures selectedTeam == old(selectedTeam) && savedTeam == old(savedTeam)
    {
      favoriteTeams := favoriteTeams + [team];
      savedFavorites := Some(favoriteTeams);
    }

    /** `removeFavoriteTeam`: drops every favourite with the code and saves the new list. */
    method RemoveFavoriteTeam(teamCode: string)
      modifies this
      ensures favoriteTeams == WithoutCode(old(favoriteTeams), teamCode) && savedFavorites == Some(favoriteTeams)
      ensures selectedTeam == old(selectedTeam) && savedTeam == old(savedTeam)
    {
      favoriteTeams := Filter(favoriteTeams, (t: Team) => t.code != teamCode);
      savedFavorites := Some(favoriteTeams);
    }
  }

  /** A directory team selected and saved is selected again by a provider started from the
      same storage, and the favourites come back as saved. */
  method SelectionSurvivesReload(p: TeamProvider, i: nat) returns (q: TeamProvider)
    requires i < |TEAMS|
    modifies p
    ensures q.selectedTeam == TEAMS[i]
    ensures q.favoriteTeams == p.favoriteTeams
  {
    p.SetSelectedTeam(TEAMS[i]);
    p.AddFavoriteTeam(TEAMS[i]);
    q := new TeamProvider(p.savedTeam, p.savedFavorites);
    GetTeamByCodeUnique(i);
    q.LoadSaved();
  }

  /** A saved code outside the directory leaves the default selection. */
  method UnknownCodeKeepsDefault(code: string) returns (q: TeamProvider)
    requires forall i :: 0 <= i < |TEAMS| ==> TEAMS[i].code != code
    ensures q.selectedTeam == TEAMS[0] && q.favoriteTeams == []
  {
    q := new TeamProvider(Some(code), None);
    q.LoadSaved();
  }
}
