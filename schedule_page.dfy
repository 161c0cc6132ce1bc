/** The schedule page (src/app/schedule/page.tsx): the team filter over the schedule and the
    grouping of the filtered games by date. The grouping object is a map from date to its
    games together with the order in which its keys were created, which is the order in which
    the page lists the dates. */
module SchedulePage {
  import opened Common
  import opened Types

  /** Whether the page keeps game under the filter value: "all" keeps every game, "my-team"
      the games of the selected team, any other value the games of the team with that code. */
  predicate KeptBy(game: Game, filterTeam: string, selectedTeam: Team) {
    if filterTeam == "all" then true
    else if filterTeam == "my-team" then
      game.home.code == selectedTeam.code || game.away.code == selectedTeam.code
    else game.home.code == filterTeam || game.away.code == filterTeam
  }

  /** `filteredSchedule`: the games kept by the filter, in schedule order. */
  function FilteredSchedule(schedule: seq<Game>, filterTeam: string, selectedTeam: Team): (r: seq<Game>)
    ensures IsSubsequence(r, schedule)
    ensures forall g :: g in r <==> g in schedule && KeptBy(g, filterTeam, selectedTeam)
  {
    Filter(schedule, (g: Game) => KeptBy(g, filterTeam, selectedTeam))
  }

  /** "all" keeps the whole schedule, in order. */
  lemma FilterAllKeepsSchedule(schedule: seq<Game>, selectedTeam: Team)
    ensures FilteredSchedule(schedule, "all", selectedTeam) == schedule
  {
    FilterAll(schedule, (g: Game) => KeptBy(g, "all", selectedTeam));
  }

  /** "my-team" keeps exactly the games the selected team plays, home or away; any other code
      keeps exactly the games that team plays. */
  lemma FilterByTeam(schedule: seq<Game>, selectedTeam: Team, code: string, g: Game)
    ensures g in FilteredSchedule(schedule, "my-team", selectedTeam) <==>
      g in schedule && (g.home.code == selectedTeam.code || g.away.code == selectedTeam.code)
    ensures code != "all" && code != "my-team" ==>
      (g in FilteredSchedule(schedule, code, selectedTeam) <==>
         g in schedule && (g.home.code == code || g.away.code == code))
  {
  }

  /** "my-team" shows the same games as choosing the selected team's own code. */
  lemma MyTeamIsOwnCode(schedule: seq<Game>, selectedTeam: Team)
    requires selectedTeam.code != "all" && selectedTeam.code != "my-team"
    ensures FilteredSchedule(schedule, "my-team", selectedTeam)
         == FilteredSchedule(schedule, selectedTeam.code, selectedTeam)
  {
    FilterAgree(schedule, (g: Game) => KeptBy(g, "my-team", selectedTeam),
                          (g: Game) => KeptBy(g, selectedTeam.code, selectedTeam));
  }

  /** The games of one date, in order. */
  function OnDate(games: seq<Game>, date: string): (r: seq<Game>)
    ensures forall g :: g in r <==> g in games && g.date == date
  {
    Filter(games, (g: Game) => g.date == date)
  }

  /** The dates of the games, each once, in order of first appearance. */
  function Dates(games: seq<Game>): (r: seq<string>)
    ensures forall d :: d in r <==> exists g :: g in games && g.date == d
    decreases |games|
  {
    if games == [] then []
    else
      var init := games[..|games| - 1];
      var last := games[|games| - 1];
      var earlier := Dates(init);
      assert forall g :: g in games <==> g in init || g == last by {
        assert games == init + [last];
      }
      if last.date in earlier then earlier else earlier + [last.date]
  }

  /** No date is listed twice. */
  lemma {:induction false} DatesDistinct(games: seq<Game>)
    ensures forall i, j :: 0 <= i < j < |Dates(games)| ==> Dates(games)[i] != Dates(games)[j]
    decreases |games|
  {
    if games != [] {
      DatesDistinct(games[..|games| - 1]);
    }
  }

  /** Appending a game adds it at the end of its date's games and leaves other dates alone. */
  lemma OnDateSnoc(games: seq<Game>, g: Game, date: string)
    ensures OnDate(games + [g], date) == OnDate(games, date) + (if g.date == date then [g] else [])
  {
    FilterAppend(games, [g], (x: Game) => x.date == date);
  }

  /** The grouping of games: each date that occurs, mapped to its games in order. */
  function GroupsOf(games: seq<Game>): (m: map<string, seq<Game>>)
    ensures forall d :: d in m <==> d in Dates(games)
    ensures forall d :: d in m ==> m[d] == OnDate(games, d)
  {
    map d | d in Dates(games) :: OnDate(games, d)
  }

  /** Appending a game appends it to its date's group, which is created when the date is new. */
  lemma GroupsOfSnoc(games: seq<Game>, game: Game)
    ensures var groups := GroupsOf(games);
      GroupsOf(games + [game])
      == groups[game.date := (if game.date in groups then groups[game.date] else []) + [game]]
  {
    var date := game.date;
    var groups := GroupsOf(games);
    var after := GroupsOf(games + [game]);
    var expected := groups[date := (if date in groups then groups[date] else []) + [game]];
    DatesSnoc(games, game);
    assert forall d :: d in after <==> d in expected;
    forall d | d in after
      ensures after[d] == expected[d]
    {
      GroupSnoc(games, game, d);
    }
    assert after == expected;
  }

  /** Appending a game appends it to the games of its date, which had none when the date
      was new, and leaves every other date's games alone. */
  lemma GroupSnoc(games: seq<Game>, game: Game, d: string)
    ensures OnDate(games + [game], d)
      == if d != game.date then OnDate(games, d)
         else (if d in Dates(games) then OnDate(games, d) else []) + [game]
  {
    OnDateSnoc(games, game, d);
    if d == game.date && d !in Dates(games) {
      NoGameOnDate(games, d);
    }
  }

  /** Appending a game adds its date at the end of the dates, unless it is already there. */
  lemma DatesSnoc(games: seq<Game>, game: Game)
    ensures Dates(games + [game])
      == if game.date in Dates(games) then Dates(games) else Dates(games) + [game.date]
  {
    var all := games + [game];
    assert all[..|all| - 1] == games;
  }

  /** A date no game has selects no game. */
  lemma NoGameOnDate(games: seq<Game>, date: string)
    requires date !in Dates(games)
    ensures OnDate(games, date) == []
  {
  }

  /** The `reduce` building `groupedSchedule`: each game is pushed onto its date's list, the
      list being created, and the date recorded, the first time the date is seen. The keys
      come out in order of first appearance, each holding its date's games in order. */
  method GroupByDate(games: seq<Game>) returns (groups: map<string, seq<Game>>, order: seq<string>)
    ensures order == Dates(games)
    ensures forall d :: d in groups <==> d in order
    ensures forall d :: d in groups ==> groups[d] == OnDate(games, d)
  {
    groups := map[];
    order := [];
    for i := 0 to |games|
      invariant groups == GroupsOf(games[..i])
      invariant order == Dates(games[..i])
    {
      var game := games[i];
      var date := game.date;
      GroupStep(games, i, groups, order);
      if date !in groups {
        groups := groups[date := []];
        order := order + [date];
      }
      groups := groups[date := groups[date] + [game]];
    }
    assert games[..|games|] == games;
  }

  /** One turn of the loop of GroupByDate: creating the date's list when missing and pushing
      the game onto it gives the grouping of one more game. */
  lemma GroupStep(games: seq<Game>, i: nat, groups: map<string, seq<Game>>, order: seq<string>)
    requires i < |games|
    requires groups == GroupsOf(games[..i]) && order == Dates(games[..i])
    ensures var date := games[i].date;
      var g1 := if date in groups then groups else groups[date := []];
      && g1[date := g1[date] + [games[i]]] == GroupsOf(games[..i + 1])
      && (if date in groups then order else order + [date]) == Dates(games[..i + 1])
  {
    assert games[..i + 1] == games[..i] + [games[i]];
    GroupsOfSnoc(games[..i], games[i]);
    DatesSnoc(games[..i], games[i]);
    var date := games[i].date;
    if date !in groups {
      UpdateTwice(groups, date, [], [] + [games[i]]);
    }
  }

  /** A key written twice holds the second value. */
  lemma UpdateTwice<K, V>(m: map<K, V>, k: K, a: V, b: V)
    ensures m[k := a][k := b] == m[k := b]
  {
    var l := m[k := a][k := b];
    var r := m[k := b];
    assert forall x :: x in l <==> x in r;
    assert forall x :: x in l ==> l[x] == r[x];
  }

  /** Every listed date has at least one game. */
  lemma NoEmptyGroup(games: seq<Game>, d: string)
    requires d in Dates(games)
    ensures OnDate(games, d) != []
  {
    var g :| g in games && g.date == d;
    assert g in OnDate(games, d);
  }

  /** The number of games over the dates ds. */
  function GroupedCount(games: seq<Game>, ds: seq<string>): nat
    decreases |ds|
  {
    if ds == [] then 0 else |OnDate(games, ds[0])| + GroupedCount(games, ds[1..])
  }

  /** Appending a game adds one to the count of every list of dates holding its date once. */
  lemma {:induction false} GroupedCountSnoc(games: seq<Game>, g: Game, ds: seq<string>)
    requires forall i, j :: 0 <= i < j < |ds| ==> ds[i] != ds[j]
    ensures GroupedCount(games + [g], ds) == GroupedCount(games, ds) + (if g.date in ds then 1 else 0)
    decreases |ds|
  {
    if ds != [] {
      OnDateSnoc(games, g, ds[0]);
      GroupedCountSnoc(games, g, ds[1..]);
      if g.date == ds[0] {
        assert g.date !in ds[1..];
      }
    }
  }

  /** Adding one date to the list adds its games to the count. */
  lemma {:induction false} GroupedCountAppend(games: seq<Game>, ds: seq<string>, d: string)
    ensures GroupedCount(games, ds + [d]) == GroupedCount(games, ds) + |OnDate(games, d)|
    decreases |ds|
  {
    if ds == [] {
      assert ds + [d] == [d];
    } else {
      assert (ds + [d])[1..] == ds[1..] + [d];
      GroupedCountAppend(games, ds[1..], d);
    }
  }

  /** The groups together hold every game once: their sizes add up to the number of games. */
  lemma {:induction false} GroupsPartition(games: seq<Game>)
    ensures GroupedCount(games, Dates(games)) == |games|
    decreases |games|
  {
    if games != [] {
      var init := games[..|games| - 1];
      var last := games[|games| - 1];
      assert games == init + [last];
      GroupsPartition(init);
      DatesDistinct(init);
      GroupedCountSnoc(init, last, Dates(init));
      DatesSnoc(init, last);
      if last.date !in Dates(init) {
        GroupedCountAppend(games, Dates(init), last.date);
        OnDateSnoc(init, last, last.date);
        NoGameOnDate(init, last.date);
      }
    }
  }
}
