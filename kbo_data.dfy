/** The league-data loaders of src/lib/kbo-data.ts: each asks the league's web
    service for rows, maps them onto the application's records, and falls back
    to built-in data when the request fails. A request's outcome is a
    parameter (`Rows` when the service answered with a JSON array, `Failure`
    for every path the source's `catch` handles). */
module KboData {
  import opened Common
  import opened Numerals
  import opened Types
  import opened Teams
  import opened KboCache

  /** The outcome of one request to the league's web service. */
  datatype Fetched<T> = Failure | Rows(rows: seq<T>)

  /** A standings row as the service sends it; `wra` is the value `parseFloat` reads from the
      win-rate field, `gb` the value it reads from the games-behind field (None for NaN). */
  datatype RankRow = RankRow(teamName: string, game: string, win: string, lose: string,
                             drawn: string, wra: real, gb: Option<real>)

  /** A batting leaderboard row; `hra` is the batting average `parseFloat` reads. */
  datatype BatterRow = BatterRow(pcode: string, playerName: string, teamName: string, pos: string,
                                 gamenum: string, hra: real, hr: string, rbi: string)

  /** A pitching leaderboard row; `era` is the earned run average `parseFloat` reads. */
  datatype PitcherRow = PitcherRow(pcode: string, playerName: string, teamName: string,
                                   gamenum: string, era: real, w: string, sv: string, so: string)

  /** A schedule row; the scores may be missing. */
  datatype ScheduleRow = ScheduleRow(gameId: string, gameDate: string, gameTime: string,
                                     homeTeamName: string, awayTeamName: string, stadium: string,
                                     gameStatus: string, homeScore: Option<string>, awayScore: Option<string>)

  /** The number of players a leaderboard keeps. */
  const LEADERBOARD_SIZE: int := 10

  /** The seasons the history covers, newest first. */
  const YEARS: seq<int> := [2024, 2023, 2022, 2021, 2020]

  /** `ts.find(t => t.name.includes(text))`: the first team whose name contains text. */
  function FindByName(ts: seq<Team>, text: string): (r: Option<Team>)
    ensures r.None? <==> forall i :: 0 <= i < |ts| ==> !Contains(ts[i].name, text)
    ensures r.Some? ==> exists i :: 0 <= i < |ts| && ts[i] == r.value && Contains(ts[i].name, text)
                                    && forall j :: 0 <= j < i ==> !Contains(ts[j].name, text)
  {
    if ts == [] then None
    else if Contains(ts[0].name, text) then Some(ts[0])
    else
      var r := FindByName(ts[1..], text);
      assert r.Some? ==> exists i :: 1 <= i < |ts| && ts[i] == r.value && Contains(ts[i].name, text)
                                     && forall j :: 0 <= j < i ==> !Contains(ts[j].name, text) by {
        if r.Some? {
          var k :| 0 <= k < |ts[1..]| && ts[1..][k] == r.value && Contains(ts[1..][k].name, text)
                   && forall j :: 0 <= j < k ==> !Contains(ts[1..][j].name, text);
          assert ts[k + 1] == r.value;
          assert forall j :: 1 <= j < k + 1 ==> ts[j] == ts[1..][j - 1];
        }
      }
      r
  }

  /** The team of a row: the first directory team whose name contains the service's team
      name, or the first team when none does. */
  function TeamForName(text: string): (t: Team)
    ensures t in TEAMS
    ensures (forall i :: 0 <= i < |TEAMS| ==> !Contains(TEAMS[i].name, text)) ==> t == TEAMS[0]
    ensures (exists i :: 0 <= i < |TEAMS| && Contains(TEAMS[i].name, text)) ==> Contains(t.name, text)
  {
    FindByName(TEAMS, text).GetOr(TEAMS[0])
  }

  /** Every name contains the empty text, so an empty team name gives the first team. */
  lemma TeamForEmptyName()
    ensures TeamForName("") == TEAMS[0]
  {
    EmptyContained(TEAMS[0].name);
  }

  /** No team's name occurs inside the name of a team listed before it. */
  lemma NameNotInEarlier(j: nat, i: nat)
    requires j < i < |TEAMS|
    ensures !Contains(TEAMS[j].name, TEAMS[i].name)
  {
    if i == 3 && j == 2 {
      NotContainsLonger(TEAMS[j].name, TEAMS[i].name);
    } else {
      NameStartsApart(j, i);
      NotContainsFirst(TEAMS[j].name, TEAMS[i].name);
    }
  }

  /** The first character of a team's name does not occur in the name of a team listed
      before it, KIA after KT excepted. */
  lemma NameStartsApart(j: nat, i: nat)
    requires j < i < |TEAMS| && !(i == 3 && j == 2)
    ensures TEAMS[i].name[0] !in TEAMS[j].name
  {
    var n := TEAMS[i].name;
    var m := TEAMS[j].name;
    assert forall k :: 0 <= k < |m| ==> m[k] != n[0];
  }

  /** A row carrying a team's full name is matched to that team. */
  lemma TeamForOwnName(i: nat)
    requires i < |TEAMS|
    ensures TeamForName(TEAMS[i].name) == TEAMS[i]
  {
    forall j | 0 <= j < i
      ensures !Contains(TEAMS[j].name, TEAMS[i].name)
    {
      NameNotInEarlier(j, i);
    }
    ContainsAtIndex(TEAMS[i].name, TEAMS[i].name, 0);
    var r := FindByName(TEAMS, TEAMS[i].name);
    var k :| 0 <= k < |TEAMS| && TEAMS[k] == r.value && Contains(TEAMS[k].name, TEAMS[i].name)
             && forall j :: 0 <= j < k ==> !Contains(TEAMS[j].name, TEAMS[i].name);
    assert k == i;
  }

  /** `parseFloat(gb) || 0`: NaN and 0 both give 0. */
  function GameBehind(gb: Option<real>): (r: real)
    ensures gb.Some? && gb.value != 0.0 ==> r == gb.value
    ensures gb.None? ==> r == 0.0
  {
    if gb.Some? && gb.value != 0.0 then gb.value else 0.0
  }

  /** The standings row at index i, ranked i + 1. */
  function ToRanking(row: RankRow, i: nat): TeamRanking {
    TeamRanking(
      rank := i + 1,
      team := TeamForName(row.teamName),
      games := ParseInt(row.game),
      wins := ParseInt(row.win),
      losses := ParseInt(row.lose),
      draws := ParseInt(row.drawn),
      winRate := row.wra,
      gameBehind := GameBehind(row.gb))
  }

  /** `data.map((team, index) => …)`: one ranking per row, in the service's order, the i-th
      ranked i + 1. */
  function Rankings(rows: seq<RankRow>): (r: seq<TeamRanking>)
    ensures |r| == |rows|
    ensures forall i :: 0 <= i < |r| ==> r[i] == ToRanking(rows[i], i)
  {
    seq(|rows|, i requires 0 <= i < |rows| => ToRanking(rows[i], i))
  }

  /** Ranks run 1, 2, 3, … in row order; each team is the one its row names, a missing
      games-behind value reads as 0. */
  lemma RankingsFromRows(rows: seq<RankRow>)
    ensures forall i :: 0 <= i < |Rankings(rows)| ==> Rankings(rows)[i].rank == i + 1
    ensures forall i :: 0 <= i < |rows| ==> Rankings(rows)[i].team == TeamForName(rows[i].teamName)
    ensures forall i :: 0 <= i < |rows| && rows[i].gb.None? ==> Rankings(rows)[i].gameBehind == 0.0
    ensures forall i, j :: 0 <= i < j < |rows| ==> Rankings(rows)[i].rank < Rankings(rows)[j].rank
  {
  }

  /** A built-in standings row: 144 games, 2 draws. The built-in data names each team by
      `TEAMS.find(t => t.code === code)!`, which is the directory entry with that code
      (`GetTeamByCodeUnique`); it is written here as that entry. */
  function MockRanking(rank: int, team: Team, wins: int, losses: int, winRate: real, gb: real): TeamRanking {
    TeamRanking(rank, team, Int(144), Int(wins), Int(losses), Int(2), winRate, gb)
  }

  /** The built-in standings served when the service fails. */
  function MockRankings(): seq<TeamRanking> {
    [ MockRanking(1, TEAMS[0], 87, 55, 0.613, 0.0),
      MockRanking(2, TEAMS[1], 82, 60, 0.577, 5.0),
      MockRanking(3, TEAMS[2], 78, 64, 0.549, 9.0),
      MockRanking(4, TEAMS[3], 76, 66, 0.535, 11.0),
      MockRanking(5, TEAMS[4], 74, 68, 0.521, 13.0),
      MockRanking(6, TEAMS[5], 72, 70, 0.507, 15.0),
      MockRanking(7, TEAMS[6], 70, 72, 0.493, 17.0),
      MockRanking(8, TEAMS[7], 68, 74, 0.479, 19.0),
      MockRanking(9, TEAMS[8], 65, 77, 0.458, 22.0),
      MockRanking(10, TEAMS[9], 62, 80, 0.437, 25.0) ]
  }

  /** `getCurrentSeasonRankings`: the mapped rows, or the built-in standings on failure. */
  function CurrentSeasonRankings(fetched: Fetched<RankRow>): (r: seq<TeamRanking>)
    ensures fetched.Rows? ==> r == Rankings(fetched.rows)
    ensures fetched.Failure? ==> |r| == 10
  {
    match fetched
    case Failure => MockRankings()
    case Rows(rows) => Rankings(rows)
  }

  /** Whatever the service does, ranks are 1, 2, 3, … in order: the built-in standings too. */
  lemma CurrentSeasonRanks(fetched: Fetched<RankRow>)
    ensures var r := CurrentSeasonRankings(fetched);
      forall i :: 0 <= i < |r| ==> r[i].rank == i + 1
  {
  }

  /** A batter on the leaderboard. */
  function ToBatter(row: BatterRow): PlayerStats {
    PlayerStats(
      playerId := row.pcode, name := row.playerName, team := TeamForName(row.teamName),
      position := row.pos, games := ParseInt(row.gamenum),
      battingAverage := Some(row.hra), homeRuns := Some(ParseInt(row.hr)), rbis := Some(ParseInt(row.rbi)),
      era := None, wins := None, saves := None, strikeouts := None)
  }

  /** A pitcher on the leaderboard: the position is always "P". */
  function ToPitcher(row: PitcherRow): PlayerStats {
    PlayerStats(
      playerId := row.pcode, name := row.playerName, team := TeamForName(row.teamName),
      position := "P", games := ParseInt(row.gamenum),
      battingAverage := None, homeRuns := None, rbis := None,
      era := Some(row.era), wins := Some(ParseInt(row.w)), saves := Some(ParseInt(row.sv)),
      strikeouts := Some(ParseInt(row.so)))
  }

  function MockBatter(id: string, name: string, team: Team, pos: string, games: int,
                      avg: real, hr: int, rbi: int): PlayerStats
  {
    PlayerStats(id, name, team, pos, Int(games), Some(avg), Some(Int(hr)), Some(Int(rbi)),
                None, None, None, None)
  }

  function MockPitcher(id: string, name: string, team: Team, games: int, era: real,
                       wins: Option<Num>, saves: Option<Num>, so: int): (p: PlayerStats)
    ensures p.position == "P"
  {
    PlayerStats(id, name, team, "P", Int(games), None, None, None,
                Some(era), wins, saves, Some(Int(so)))
  }

  /** The built-in batting leaderboard. */
  function MockBatters(): (r: seq<PlayerStats>)
    ensures |r| == 5
  {
    [ MockBatter("1", "최정", TEAMS[0], "3B", 140, 0.312, 34, 108),
      MockBatter("2", "박병호", TEAMS[0], "1B", 138, 0.298, 31, 95),
      MockBatter("3", "김하성", TEAMS[3], "SS", 142, 0.305, 18, 78),
      MockBatter("4", "양의지", TEAMS[4], "C", 135, 0.295, 22, 89),
      MockBatter("5", "홍창기", TEAMS[1], "OF", 144, 0.301, 15, 67) ]
  }

  /** The built-in pitching leaderboard; starters carry wins, closers saves. */
  function MockPitchers(): (r: seq<PlayerStats>)
    ensures |r| == 5 && forall i :: 0 <= i < |r| ==> r[i].position == "P"
  {
    [ MockPitcher("6", "김광현", TEAMS[0], 32, 2.45, Some(Int(15)), None, 165),
      MockPitcher("7", "고영표", TEAMS[0], 58, 1.89, None, Some(Int(32)), 78),
      MockPitcher("8", "원태인", TEAMS[6], 30, 2.67, Some(Int(13)), None, 142),
      MockPitcher("9", "플럭스", TEAMS[1], 29, 2.89, Some(Int(14)), None, 156),
      MockPitcher("10", "임기영", TEAMS[3], 55, 2.12, None, Some(Int(28)), 89) ]
  }

  /** `getTopBatters`: the first ten rows as batters, or the built-in leaderboard on failure. */
  function TopBatters(fetched: Fetched<BatterRow>): seq<PlayerStats> {
    match fetched
    case Failure => MockBatters()
    case Rows(rows) => Map(SliceTo(rows, LEADERBOARD_SIZE), ToBatter)
  }

  /** `getTopPitchers`: the first ten rows as pitchers, or the built-in leaderboard on failure. */
  function TopPitchers(fetched: Fetched<PitcherRow>): seq<PlayerStats> {
    match fetched
    case Failure => MockPitchers()
    case Rows(rows) => Map(SliceTo(rows, LEADERBOARD_SIZE), ToPitcher)
  }

  /** A leaderboard has at most ten players, the first rows of the service in their order. */
  lemma TopBattersAreFirstRows(fetched: Fetched<BatterRow>)
    ensures |TopBatters(fetched)| <= LEADERBOARD_SIZE
    ensures fetched.Rows? ==>
      |TopBatters(fetched)| == (if |fetched.rows| < LEADERBOARD_SIZE then |fetched.rows| else LEADERBOARD_SIZE)
      && forall i :: 0 <= i < |TopBatters(fetched)| ==> TopBatters(fetched)[i] == ToBatter(fetched.rows[i])
  {
    match fetched
    case Failure =>
      assert TopBatters(fetched) == MockBatters();
    case Rows(rows) =>
      var top := SliceTo(rows, LEADERBOARD_SIZE);
      assert TopBatters(fetched) == Map(top, ToBatter);
      forall i | 0 <= i < |top|
        ensures Map(top, ToBatter)[i] == ToBatter(rows[i])
      {
        assert top[i] == rows[i];
      }
  }

  /** The pitching leaderboard has at most ten players, all with position "P". */
  lemma TopPitchersArePitchers(fetched: Fetched<PitcherRow>)
    ensures |TopPitchers(fetched)| <= LEADERBOARD_SIZE
    ensures forall i :: 0 <= i < |TopPitchers(fetched)| ==> TopPitchers(fetched)[i].position == "P"
    ensures fetched.Rows? ==>
      forall i :: 0 <= i < |TopPitchers(fetched)| ==> TopPitchers(fetched)[i] == ToPitcher(fetched.rows[i])
  {
    match fetched
    case Failure =>
      assert TopPitchers(fetched) == MockPitchers();
    case Rows(rows) =>
      var top := SliceTo(rows, LEADERBOARD_SIZE);
      assert TopPitchers(fetched) == Map(top, ToPitcher);
      forall i | 0 <= i < |top|
        ensures Map(top, ToPitcher)[i] == ToPitcher(rows[i])
      {
        assert top[i] == rows[i];
      }
  }

  /** `champions[year]`: the code of the season's champion, KIA, LG, SSG, KT and NC for 2024
      down to 2020, written as the directory entries' codes; none for other years. */
  function ChampionCode(year: int): Option<string> {
    if year == 2024 then Some(TEAMS[3].code)
    else if year == 2023 then Some(TEAMS[1].code)
    else if year == 2022 then Some(TEAMS[0].code)
    else if year == 2021 then Some(TEAMS[2].code)
    else if year == 2020 then Some(TEAMS[4].code)
    else None
  }

  /** `TEAMS.find(t => t.code === champions[year]) || TEAMS[0]`. */
  function Champion(year: int): (t: Team)
    ensures t in TEAMS
  {
    match ChampionCode(year)
    case None => TEAMS[0]
    case Some(code) => GetTeamByCode(code).GetOr(TEAMS[0])
  }

  /** The champions of 2024 down to 2020 are KIA, LG, SSG, KT and NC. */
  lemma Champions(year: int)
    ensures year == 2024 ==> Champion(year).code == "KIA"
    ensures year == 2023 ==> Champion(year).code == "LG"
    ensures year == 2022 ==> Champion(year).code == "SSG"
    ensures year == 2021 ==> Champion(year).code == "KT"
    ensures year == 2020 ==> Champion(year).code == "NC"
  {
    if year == 2024 {
      ChampionIs(year, 3);
    } else if year == 2023 {
      ChampionIs(year, 1);
    } else if year == 2022 {
      ChampionIs(year, 0);
    } else if year == 2021 {
      ChampionIs(year, 2);
    } else if year == 2020 {
      ChampionIs(year, 4);
    }
  }

  /** A year whose recorded code is a directory team's has that team as champion. */
  lemma ChampionIs(year: int, k: nat)
    requires k < |TEAMS| && ChampionCode(year) == Some(TEAMS[k].code)
    ensures Champion(year) == TEAMS[k]
  {
    GetTeamByCodeUnique(k);
  }

  /** Any year without a recorded champion falls back to the first team. */
  lemma ChampionOtherYears(year: int)
    requires year !in YEARS
    ensures Champion(year) == TEAMS[0]
  {
    assert ChampionCode(year) == None;
  }


  /** The request date of a season: the 31st of October of that year, as `YYYY1031`. */
  function SeasonEndDate(year: int): string {
    IntToString(year) + "1031"
  }

  /** The history entry of a season whose standings request succeeded. */
  function Season(year: int, rows: seq<RankRow>): (h: HistoricalRanking)
    ensures h.year == year
  {
    HistoricalRanking(year, Rankings(rows), Champion(year))
  }

  /** The standings of the years, in order, whose request succeeded. */
  function Collected(years: seq<int>, fetchYear: string -> Fetched<RankRow>): (r: seq<HistoricalRanking>)
    ensures |r| <= |years|
  {
    if years == [] then []
    else
      var rest := Collected(years[1..], fetchYear);
      match fetchYear(SeasonEndDate(years[0]))
      case Failure => rest
      case Rows(rows) => [Season(years[0], rows)] + rest
  }

  /** The built-in history: 2024 won by KIA, 2023 won by LG, one standings row each. */
  function MockHistory(): seq<HistoricalRanking> {
    [ HistoricalRanking(2024, [MockRanking(1, TEAMS[0], 87, 55, 0.613, 0.0)], TEAMS[3]),
      HistoricalRanking(2023, [TeamRanking(1, TEAMS[1], Int(144), Int(89), Int(53), Int(2), 0.627, 0.0)],
                        TEAMS[1]) ]
  }

  /** `getHistoricalRankings`: the collected seasons, or the built-in history when none
      succeeded. */
  function HistoricalRankings(fetchYear: string -> Fetched<RankRow>): (r: seq<HistoricalRanking>)
    ensures r != []
  {
    var collected := Collected(YEARS, fetchYear);
    if |collected| > 0 then collected else MockHistory()
  }

  /** One step of the collection: the first year's entry, if its request succeeded, then
      the rest. */
  lemma CollectedStep(years: seq<int>, k: nat, fetchYear: string -> Fetched<RankRow>)
    requires k < |years|
    ensures fetchYear(SeasonEndDate(years[k])).Failure? ==>
      Collected(years[k..], fetchYear) == Collected(years[k + 1..], fetchYear)
    ensures fetchYear(SeasonEndDate(years[k])).Rows? ==>
      Collected(years[k..], fetchYear)
      == [Season(years[k], fetchYear(SeasonEndDate(years[k])).rows)] + Collected(years[k + 1..], fetchYear)
  {
    assert years[k..][1..] == years[k + 1..];
  }

  /** Moving one element from the front of the pending part to the end of the done part
      keeps their concatenation. */
  lemma ShiftOne<T>(done: seq<T>, x: T, pending: seq<T>)
    ensures (done + [x]) + pending == done + ([x] + pending)
  {
  }

  /** The loop of `getHistoricalRankings`: each year in turn, its standings appended when
      the request succeeded and skipped when it failed. */
  method CollectSeasons(years: seq<int>, fetchYear: string -> Fetched<RankRow>)
    returns (historicalData: seq<HistoricalRanking>)
    ensures historicalData == Collected(years, fetchYear)
  {
    historicalData := [];
    var k := 0;
    while k < |years|
      invariant 0 <= k <= |years|
      invariant historicalData + Collected(years[k..], fetchYear) == Collected(years, fetchYear)
    {
      var year := years[k];
      var response := fetchYear(SeasonEndDate(year));
      ghost var rest := Collected(years[k + 1..], fetchYear);
      CollectedStep(years, k, fetchYear);
      if response.Rows? {
        var season := Season(year, response.rows);
        ShiftOne(historicalData, season, rest);
        historicalData := historicalData + [season];
      }
      k := k + 1;
    }
    assert years[k..] == [];
  }

  /** `getHistoricalRankings`: the seasons 2024 down to 2020 collected, or the built-in
      history when none succeeded. */
  method GetHistoricalRankings(fetchYear: string -> Fetched<RankRow>) returns (result: seq<HistoricalRanking>)
    ensures result == HistoricalRankings(fetchYear)
  {
    var historicalData := CollectSeasons(YEARS, fetchYear);
    result := if |historicalData| > 0 then historicalData else MockHistory();
  }

  /** h is the season of one of the years whose request succeeded, with that request's rows. */
  predicate CollectedEntry(years: seq<int>, fetchYear: string -> Fetched<RankRow>, h: HistoricalRanking) {
    && h.year in years
    && fetchYear(SeasonEndDate(h.year)).Rows?
    && h == Season(h.year, fetchYear(SeasonEndDate(h.year)).rows)
  }

  /** The entries are in strictly descending order of year. */
  predicate YearsDescending(r: seq<HistoricalRanking>) {
    forall i, j :: 0 <= i < j < |r| ==> r[i].year > r[j].year
  }

  /** Every collected entry is the season of one of the years whose request succeeded. */
  lemma {:induction false} CollectedEntries(years: seq<int>, fetchYear: string -> Fetched<RankRow>)
    ensures forall h :: h in Collected(years, fetchYear) ==> CollectedEntry(years, fetchYear, h)
    decreases |years|
  {
    if years != [] {
      CollectedEntries(years[1..], fetchYear);
      forall h | h in Collected(years[1..], fetchYear)
        ensures CollectedEntry(years, fetchYear, h)
      {
        assert CollectedEntry(years[1..], fetchYear, h);
      }
    }
  }

  /** Every collected entry is of one of the requested years. */
  lemma {:induction false} CollectedYearsIn(years: seq<int>, fetchYear: string -> Fetched<RankRow>)
    ensures forall h :: h in Collected(years, fetchYear) ==> h.year in years
    decreases |years|
  {
    if years != [] {
      CollectedYearsIn(years[1..], fetchYear);
      forall h | h in Collected(years[1..], fetchYear)
        ensures h.year in years
      {
        assert h.year in years[1..];
      }
    }
  }

  /** An entry older than every entry of a descending list keeps it descending when put in
      front. */
  lemma ConsDescending(h: HistoricalRanking, rest: seq<HistoricalRanking>)
    requires YearsDescending(rest)
    requires forall x :: x in rest ==> x.year < h.year
    ensures YearsDescending([h] + rest)
  {
    var r := [h] + rest;
    forall i, j | 0 <= i < j < |r|
      ensures r[i].year > r[j].year
    {
      assert r[j] == rest[j - 1];
      if i > 0 {
        assert r[i] == rest[i - 1];
      }
    }
  }

  /** Years requested in descending order are collected in descending order. */
  lemma {:induction false} CollectedDescending(years: seq<int>, fetchYear: string -> Fetched<RankRow>)
    requires forall i, j :: 0 <= i < j < |years| ==> years[i] > years[j]
    ensures YearsDescending(Collected(years, fetchYear))
    decreases |years|
  {
    if years != [] {
      CollectedDescending(years[1..], fetchYear);
      var rest := Collected(years[1..], fetchYear);
      match fetchYear(SeasonEndDate(years[0]))
      case Failure =>
        assert Collected(years, fetchYear) == rest;
      case Rows(rows) =>
        var h := Season(years[0], rows);
        assert Collected(years, fetchYear) == [h] + rest;
        CollectedYearsIn(years[1..], fetchYear);
        forall x | x in rest
          ensures x.year < h.year
        {
          var m :| 0 <= m < |years| - 1 && years[1..][m] == x.year;
          assert years[m + 1] < years[0];
        }
        ConsDescending(h, rest);
    }
  }


  /** A year whose request succeeded has its entry in the collected history. */
  lemma {:induction false} CollectedHasYear(years: seq<int>, fetchYear: string -> Fetched<RankRow>, y: int)
    requires y in years && fetchYear(SeasonEndDate(y)).Rows?
    ensures exists h :: h in Collected(years, fetchYear) && h.year == y
    decreases |years|
  {
    var r := Collected(years, fetchYear);
    if y == years[0] {
      assert r[0].year == y;
    } else {
      CollectedHasYear(years[1..], fetchYear, y);
      var h :| h in Collected(years[1..], fetchYear) && h.year == y;
      assert h in r;
    }
  }

  /** Nothing is collected exactly when every request failed. */
  lemma CollectedEmpty(years: seq<int>, fetchYear: string -> Fetched<RankRow>)
    ensures Collected(years, fetchYear) == [] <==>
      forall y :: y in years ==> fetchYear(SeasonEndDate(y)).Failure?
  {
    if Collected(years, fetchYear) == [] {
      forall y | y in years
        ensures fetchYear(SeasonEndDate(y)).Failure?
      {
        if fetchYear(SeasonEndDate(y)).Rows? {
          CollectedHasYear(years, fetchYear, y);
        }
      }
    } else {
      var h := Collected(years, fetchYear)[0];
      CollectedEntries(years, fetchYear);
      assert CollectedEntry(years, fetchYear, h);
    }
  }

  /** The seasons are requested newest first, one year apart. */
  lemma YearsNewestFirst()
    ensures forall i, j :: 0 <= i < j < |YEARS| ==> YEARS[i] > YEARS[j]
  {
    assert forall i :: 0 <= i < |YEARS| ==> YEARS[i] == 2024 - i;
  }

  /** The history lists, newest first and without repetition, exactly the seasons from 2024
      down to 2020 whose request succeeded, each with its mapped standings and its champion;
      it is the built-in history when every request failed. */
  lemma HistoricalShape(fetchYear: string -> Fetched<RankRow>)
    ensures (forall y :: y in YEARS ==> fetchYear(SeasonEndDate(y)).Failure?) ==>
      HistoricalRankings(fetchYear) == MockHistory()
    ensures (exists y :: y in YEARS && fetchYear(SeasonEndDate(y)).Rows?) ==>
      && HistoricalRankings(fetchYear) == Collected(YEARS, fetchYear)
      && YearsDescending(HistoricalRankings(fetchYear))
      && (forall h :: h in HistoricalRankings(fetchYear) ==> CollectedEntry(YEARS, fetchYear, h))
      && (forall y :: y in YEARS && fetchYear(SeasonEndDate(y)).Rows? ==>
            exists h :: h in HistoricalRankings(fetchYear) && h.year == y)
  {
    CollectedEmpty(YEARS, fetchYear);
    YearsNewestFirst();
    CollectedEntries(YEARS, fetchYear);
    CollectedDescending(YEARS, fetchYear);
    forall y | y in YEARS && fetchYear(SeasonEndDate(y)).Rows?
      ensures exists h :: h in Collected(YEARS, fetchYear) && h.year == y
    {
      CollectedHasYear(YEARS, fetchYear, y);
    }
  }

  /** `game.gameStatus === "종료" ? "finished" : game.gameStatus === "경기중" ? "live" : "scheduled"`. */
  function StatusOf(gameStatus: string): (s: GameStatus)
    ensures s == Finished <==> gameStatus == "종료"
    ensures s == Live <==> gameStatus == "경기중"
    ensures s == Scheduled <==> gameStatus != "종료" && gameStatus != "경기중"
  {
    if gameStatus == "종료" then Finished
    else if gameStatus == "경기중" then Live
    else Scheduled
  }

  /** `score ? parseInt(score) : undefined`: a missing or empty score is absent. */
  function ScoreOf(score: Option<string>): (r: Option<Num>)
    ensures r.None? <==> score.None? || score.value == ""
    ensures r.Some? ==> r.value == ParseInt(score.value)
  {
    if score.Some? && score.value != "" then Some(ParseInt(score.value)) else None
  }

  /** A schedule row as a game. */
  function ToGame(row: ScheduleRow): Game {
    Game(row.gameId, row.gameDate, row.gameTime, TeamForName(row.homeTeamName),
         TeamForName(row.awayTeamName), row.stadium, StatusOf(row.gameStatus),
         ScoreOf(row.homeScore), ScoreOf(row.awayScore))
  }

  /** `getScheduleData`: the rows as games, or no games on failure. */
  function ScheduleData(fetched: Fetched<ScheduleRow>): (r: seq<Game>)
    ensures fetched.Failure? ==> r == []
    ensures fetched.Rows? ==>
      && |r| == |fetched.rows|
      && forall i :: 0 <= i < |r| ==> r[i] == ToGame(fetched.rows[i])
  {
    match fetched
    case Failure => []
    case Rows(rows) => Map(rows, ToGame)
  }

  /** The status of a game is "finished" or "live" only for the two service words, and a
      game with both scores present has them parsed. */
  lemma ScheduleStatuses(fetched: Fetched<ScheduleRow>)
    ensures var r := ScheduleData(fetched);
      forall i :: 0 <= i < |r| ==>
        && (r[i].status == Finished <==> fetched.rows[i].gameStatus == "종료")
        && (r[i].status == Live <==> fetched.rows[i].gameStatus == "경기중")
        && (r[i].homeScore.None? <==> fetched.rows[i].homeScore.None? || fetched.rows[i].homeScore.value == "")
  {
  }

  /** What the shared cache holds: standings, a leaderboard or a history. */
  datatype Cached =
    | RankingsValue(rankings: seq<TeamRanking>)
    | PlayersValue(players: seq<PlayerStats>)
    | HistoryValue(history: seq<HistoricalRanking>)

  const CURRENT_RANKINGS_KEY: string := "current-rankings"
  const TOP_BATTERS_KEY: string := "top-batters"
  const TOP_PITCHERS_KEY: string := "top-pitchers"
  const HISTORICAL_RANKINGS_KEY: string := "historical-rankings"

  /** Each key of the shared cache holds the kind of value its loader produces. */
  predicate WellKeyed(entries: map<string, Entry<Cached>>) {
    && (CURRENT_RANKINGS_KEY in entries ==> entries[CURRENT_RANKINGS_KEY].data.RankingsValue?)
    && (TOP_BATTERS_KEY in entries ==> entries[TOP_BATTERS_KEY].data.PlayersValue?)
    && (TOP_PITCHERS_KEY in entries ==> entries[TOP_PITCHERS_KEY].data.PlayersValue?)
    && (HISTORICAL_RANKINGS_KEY in entries ==> entries[HISTORICAL_RANKINGS_KEY].data.HistoryValue?)
  }

  /** `getCachedCurrentSeasonRankings`: the standings, from the cache while fresh. */
  method GetCachedCurrentSeasonRankings(cache: Cache<Cached>, fetched: Fetched<RankRow>, now: int, storedAt: int)
    returns (rankings: seq<TeamRanking>)
    requires WellKeyed(cache.entries)
    modifies cache
    ensures WellKeyed(cache.entries)
    ensures !old(cache.IsFresh(CURRENT_RANKINGS_KEY, now)) ==> rankings == CurrentSeasonRankings(fetched)
    ensures old(cache.IsFresh(CURRENT_RANKINGS_KEY, now)) ==>
      rankings == old(cache.entries[CURRENT_RANKINGS_KEY].data.rankings)
    ensures old(cache.IsFresh(CURRENT_RANKINGS_KEY, now)) ==>
      cache.entries == old(cache.entries) && cache.produced == old(cache.produced)
    ensures !old(cache.IsFresh(CURRENT_RANKINGS_KEY, now)) ==>
      cache.entries == old(cache.entries)[CURRENT_RANKINGS_KEY := Entry(RankingsValue(rankings), storedAt)]
      && cache.produced == old(cache.produced) + [CURRENT_RANKINGS_KEY]
  {
    var v := cache.GetCachedData(CURRENT_RANKINGS_KEY, () => RankingsValue(CurrentSeasonRankings(fetched)), now, storedAt);
    rankings := v.rankings;
  }

  /** `getCachedTopBatters`: the batting leaderboard, from the cache while fresh. */
  method GetCachedTopBatters(cache: Cache<Cached>, fetched: Fetched<BatterRow>, now: int, storedAt: int)
    returns (players: seq<PlayerStats>)
    requires WellKeyed(cache.entries)
    modifies cache
    ensures WellKeyed(cache.entries)
    ensures !old(cache.IsFresh(TOP_BATTERS_KEY, now)) ==> players == TopBatters(fetched)
    ensures old(cache.IsFresh(TOP_BATTERS_KEY, now)) ==>
      players == old(cache.entries[TOP_BATTERS_KEY].data.players)
    ensures old(cache.IsFresh(TOP_BATTERS_KEY, now)) ==>
      cache.entries == old(cache.entries) && cache.produced == old(cache.produced)
    ensures !old(cache.IsFresh(TOP_BATTERS_KEY, now)) ==>
      cache.entries == old(cache.entries)[TOP_BATTERS_KEY := Entry(PlayersValue(players), storedAt)]
      && cache.produced == old(cache.produced) + [TOP_BATTERS_KEY]
  {
    var v := cache.GetCachedData(TOP_BATTERS_KEY, () => PlayersValue(TopBatters(fetched)), now, storedAt);
    players := v.players;
  }

  /** `getCachedTopPitchers`: the pitching leaderboard, from the cache while fresh. */
  method GetCachedTopPitchers(cache: Cache<Cached>, fetched: Fetched<PitcherRow>, now: int, storedAt: int)
    returns (players: seq<PlayerStats>)
    requires WellKeyed(cache.entries)
    modifies cache
    ensures WellKeyed(cache.entries)
    ensures !old(cache.IsFresh(TOP_PITCHERS_KEY, now)) ==> players == TopPitchers(fetched)
    ensures old(cache.IsFresh(TOP_PITCHERS_KEY, now)) ==>
      players == old(cache.entries[TOP_PITCHERS_KEY].data.players)
    ensures old(cache.IsFresh(TOP_PITCHERS_KEY, now)) ==>
      cache.entries == old(cache.entries) && cache.produced == old(cache.produced)
    ensures !old(cache.IsFresh(TOP_PITCHERS_KEY, now)) ==>
      cache.entries == old(cache.entries)[TOP_PITCHERS_KEY := Entry(PlayersValue(players), storedAt)]
      && cache.produced == old(cache.produced) + [TOP_PITCHERS_KEY]
  {
    var v := cache.GetCachedData(TOP_PITCHERS_KEY, () => PlayersValue(TopPitchers(fetched)), now, storedAt);
    players := v.players;
  }

  /** `getCachedHistoricalRankings`: the history, from the cache while fresh. */
  method GetCachedHistoricalRankings(cache: Cache<Cached>, fetchYear: string -> Fetched<RankRow>, now: int, storedAt: int)
    returns (history: seq<HistoricalRanking>)
    requires WellKeyed(cache.entries)
    modifies cache
    ensures WellKeyed(cache.entries)
    ensures !old(cache.IsFresh(HISTORICAL_RANKINGS_KEY, now)) ==> history == HistoricalRankings(fetchYear)
    ensures old(cache.IsFresh(HISTORICAL_RANKINGS_KEY, now)) ==>
      history == old(cache.entries[HISTORICAL_RANKINGS_KEY].data.history)
    ensures old(cache.IsFresh(HISTORICAL_RANKINGS_KEY, now)) ==>
      cache.entries == old(cache.entries) && cache.produced == old(cache.produced)
    ensures !old(cache.IsFresh(HISTORICAL_RANKINGS_KEY, now)) ==>
      cache.entries == old(cache.entries)[HISTORICAL_RANKINGS_KEY := Entry(HistoryValue(history), storedAt)]
      && cache.produced == old(cache.produced) + [HISTORICAL_RANKINGS_KEY]
  {
    var v := cache.GetCachedData(HISTORICAL_RANKINGS_KEY, () => HistoryValue(HistoricalRankings(fetchYear)), now, storedAt);
    history := v.history;
  }

  /** Two standings loads less than five minutes apart, the first one a miss: the service is
      asked once, and the second load serves what the first one stored, whatever the service
      would answer by then. */
  method StandingsReusedWithin(cache: Cache<Cached>, first: Fetched<RankRow>, second: Fetched<RankRow>,
                               t1: int, t2: int)
    returns (r1: seq<TeamRanking>, r2: seq<TeamRanking>)
    requires WellKeyed(cache.entries)
    requires !cache.IsFresh(CURRENT_RANKINGS_KEY, t1)
    requires t1 <= t2 < t1 + CACHE_DURATION
    modifies cache
    ensures r1 == CurrentSeasonRankings(first) && r2 == r1
    ensures cache.produced == old(cache.produced) + [CURRENT_RANKINGS_KEY]
  {
    r1 := GetCachedCurrentSeasonRankings(cache, first, t1, t1);
    r2 := GetCachedCurrentSeasonRankings(cache, second, t2, t2);
  }
}
