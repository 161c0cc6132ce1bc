/** The records the application passes around (src/types/index.ts). A number
    the source obtains with `parseInt` is a `Num` (an integer or NaN); the rates
    it obtains with `parseFloat` are reals; optional fields are `Option`s. */
module Types {
  import opened Common

  /** A league team; its identity is `code`. */
  datatype Team = Team(code: string, name: string, color: string, logoUrl: string)

  /** The three states a game can be in. */
  datatype GameStatus = Scheduled | Live | Finished {
    /** The status as the string the components switch on. */
    function Label(): string {
      match this
      case Scheduled => "scheduled"
      case Live => "live"
      case Finished => "finished"
    }
  }

  /** One scheduled, live or finished game; scores are present only when known. */
  datatype Game = Game(
    id: string,
    date: string,
    time: string,
    home: Team,
    away: Team,
    stadium: string,
    status: GameStatus,
    homeScore: Option<Num>,
    awayScore: Option<Num>)

  /** The category a highlight is filed under. */
  datatype HighlightCategory = Recent | Legend | Favorite

  /** A highlight video as shown to the user. */
  datatype Highlight = Highlight(
    id: string,
    title: string,
    thumbnail: string,
    videoUrl: string,
    date: string,
    views: Num,
    category: HighlightCategory,
    teamCode: Option<string>)

  /** One row of the standings; `gameBehind == 0` marks the leader. */
  datatype TeamRanking = TeamRanking(
    rank: int,
    team: Team,
    games: Num,
    wins: Num,
    losses: Num,
    draws: Num,
    winRate: real,
    gameBehind: real)

  /** A player on a leaderboard: batters carry the first three optional figures,
      pitchers the last four. */
  datatype PlayerStats = PlayerStats(
    playerId: string,
    name: string,
    team: Team,
    position: string,
    games: Num,
    battingAverage: Option<real>,
    homeRuns: Option<Num>,
    rbis: Option<Num>,
    era: Option<real>,
    wins: Option<Num>,
    saves: Option<Num>,
    strikeouts: Option<Num>)

  /** The final standings of one season and its champion. */
  datatype HistoricalRanking = HistoricalRanking(year: int, rankings: seq<TeamRanking>, champion: Team)
}
