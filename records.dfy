/** The flat rows the scrapers write, one datatype per table, with the column
    names of the source's dict literals as field names. A field holding a
    `Json` is copied from the response unconverted. */
module Records {
  import opened Python

  /** A `games` row of fetch_games. */
  datatype GameRecord = GameRecord(
    game_id: Json,
    date: Json,
    status: Json,
    home_team: Json,
    away_team: Json,
    home_score: Json,
    away_score: Json)

  /** A `schedule` row of fetch_schedule. */
  datatype ScheduleRecord = ScheduleRecord(
    game_id: Json,
    date: Json,
    home_team: Json,
    away_team: Json)

  /** A `standings` row of fetch_standings. */
  datatype StandingRecord = StandingRecord(
    season: Json,
    team_id: Json,
    team_name: Json,
    division: Json,
    wins: Json,
    losses: Json,
    win_pct: real,
    games_back: real)

  /** A `player_season_stats` row of fetch_player_stats. */
  datatype PlayerRecord = PlayerRecord(
    player_id: Option<int>,
    season: int,
    team_id: Option<int>,
    player_name: Option<string>,
    games_played: int,
    avg: real,
    ops: real,
    hr: int,
    rbi: int,
    era: real,
    so: int)

  /** A `team_stats` row of fetch_team_stats; None is a column still null. */
  datatype TeamStatRecord = TeamStatRecord(
    season: int,
    team_id: Json,
    team_name: Json,
    games_played: Option<int>,
    wins: Option<int>,
    losses: Option<int>,
    win_percentage: Option<real>,
    runs_scored: Option<int>,
    runs_allowed: Option<int>,
    home_runs: Option<int>,
    batting_avg: Option<real>,
    obp: Option<real>,
    slg: Option<real>,
    era: Option<real>,
    strikeouts: Option<int>,
    walks: Option<int>,
    stolen_bases: Option<int>,
    caught_stealing: Option<int>,
    updated_at: string)

  /** A `games` row of the daily games script. */
  datatype DailyGameRecord = DailyGameRecord(
    game_id: Json,
    date: string,
    home_team: Json,
    away_team: Json,
    status: Json)

  /** Any row handed to the store. */
  datatype Row =
    | Game(game: GameRecord)
    | Schedule(entry: ScheduleRecord)
    | Standing(standing: StandingRecord)
    | Player(player: PlayerRecord)
    | TeamStat(teamStat: TeamStatRecord)
    | DailyGame(dailyGame: DailyGameRecord)
}
