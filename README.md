# MLB stats scrapers: record building and store writes

Two Python scripts feed baseball data from the MLB Stats API into a hosted
data store. `fetch_mlb_data.py` has one fetcher per table: games, standings,
player season stats, the coming week's schedule and team stats. Each fetcher
walks a decoded JSON response, builds flat rows, and hands them to an `upsert`
helper. That helper does nothing for an empty batch; otherwise it writes the
batch with a conflict spec built from the key columns. `fetch_mlb_games.py`
reads today's schedule and writes each game to the `games` table as a single
row.

The model takes the decoded response as a `Python.Json` value. The "now"
values are parameters:

- today's date;
- the current year;
- the UTC year;
- the `updated_at` timestamp.

Python's own behaviour is modelled where the scripts depend on it:

- `get` with a default;
- strict indexing;
- `[0]`;
- iteration;
- truthiness;
- `or`;
- `int()`, `float()`, `str()`;
- `lower()`, `replace()`.

The model raises the exceptions these raise on JSON values, each as a `Result`
error of the matching class. That includes two limits of the interpreter:

- `int()` of a text with more digits than the interpreter's limit
  (`Builtins.maxStrDigits`, 4300 by default since CPython 3.11, 0 for no
  limit) raises ValueError;
- `float()` of an int of magnitude 2^1024 - 2^970 or more raises
  OverflowError.

The exceptions outside this list are under "## Left out".
Each store call is recorded in the ghost log of a `Store.Client`. Whether the
store accepts a call comes from an oracle, `accepts`. Every loop exists twice:

- as a method with a loop;
- as a left-fold function that states what the loop computes.

Each method is proved equal to its function. The properties are proved about
the functions.

Modules:

- `Decimal`: the text `int()` reads and `str(int)` writes.
- `Python`: the JSON value type, the exception classes and the built-ins.
- `Access`: chained safe `.get(k, {})` access, chained strict `[k]` access, and the items of nested loops over blocks.
- `Records`: the row of each table.
- `Store`: the client, its call log, and the reading back of conflict specs.
- `UpsertHelper`: `upsert`.
- `GameFeeds`: `fetch_games` and `fetch_schedule`.
- `Standings`: `fetch_standings`.
- `PlayerStats`: `fetch_player_stats`.
- `TeamStats`: `fetch_team_stats`.
- `DailyGames`: `fetch_mlb_games.py`.

## Model

| member | source | states |
|---|---|---|
| Decimal.ParseShow | fetch_mlb_data.py:100 | the text `str()` writes for an int has the syntax `int()` reads, and its value is the same number; the digit limit is applied on top, in `Python.ToInt` |
| Python.Replace | fetch_mlb_data.py:79 | `replace` keeps the length, maps each `from` character to `to` and keeps the others, and no `from` is left when `from != to` |
| Access.GetPathMeans | fetch_mlb_data.py:49-53 | a chain of `.get(k, {})` never fails on a missing key; it fails with AttributeError exactly when a value on the path is present but not a dict; otherwise it yields the value at the end of the path, or None |
| Access.IndexPathMeans | fetch_mlb_data.py:73-74 | a chain of `[k]` succeeds exactly when every key of the path is present, and then yields the value at its end |
| Store.SplitJoin | fetch_mlb_data.py:20-22 | the comma-joined list of comma-free column names splits back into those names, in order |
| UpsertHelper.ConflictSpec | fetch_mlb_data.py:20-24 | the conflict spec exists exactly when at least one column is given; it is the comma-join of the columns (the sole column when there is one); no columns raises IndexError |
| UpsertHelper.ConflictSpecNamesColumns | fetch_mlb_data.py:20-24 | the conflict spec of comma-free columns names exactly those columns, in the given order |
| UpsertHelper.Request | fetch_mlb_data.py:13-27 | an empty batch makes no call; a non-empty batch makes one batch call on the table with the joined conflict columns; a non-empty batch without columns raises IndexError |
| UpsertHelper.EmptyBatchIsNoOp | fetch_mlb_data.py:14-16 | an upsert of no rows leaves the call log unchanged and returns normally |
| UpsertHelper.Upsert | fetch_mlb_data.py:13-34 | appends the call `Request` names, if any, to the client's log; then returns normally, or raises a refusal from the store again |
| Store.Client.Execute | fetch_mlb_data.py:27 | the call is appended to the log and answered by the store's oracle |
| GameFeeds.GameOfMeans | fetch_mlb_data.py:46-54 | a games row fails only when a nested value on a path is present and not a dict; each column is the value at the end of its path, or None when a key is missing |
| GameFeeds.ScheduleEntryOfMeans | fetch_mlb_data.py:136-141 | a schedule row carries only id, date and the two team names, each the value at the end of its path or None; it fails only on a non-dict along a team path |
| GameFeeds.RecordsFrom | fetch_mlb_data.py:45-54 | the inner loop succeeds exactly when every game's row can be built; it then appends one row per game, in order, after the rows already built |
| GameFeeds.FeedIsOnePerGame | fetch_mlb_data.py:44-54 | the feed holds one row per game across all date blocks, in response order: the i-th row is the row of the i-th game of `AllGames`; it succeeds whenever the response lists its games and every game's row builds |
| GameFeeds.CollectFeed | fetch_mlb_data.py:43-54 | the two nested loops compute exactly `Feed` |
| GameFeeds.FetchGames | fetch_mlb_data.py:37-55 | an error while building the rows raises before any call; otherwise the rows are upserted into `games` on `game_id` |
| GameFeeds.FetchSchedule | fetch_mlb_data.py:126-142 | an error while building the rows raises before any call; otherwise the rows are upserted into `schedule` on `game_id` |
| Standings.SeasonOf | fetch_mlb_data.py:64 | the season is the response's `season` when it is present and truthy, otherwise the current year; a non-dict response raises |
| Standings.GamesBackText | fetch_mlb_data.py:79 | the text handed to `float()` for games back never contains '-' |
| Standings.GamesBackSentinel | fetch_mlb_data.py:79 | an absent gamesBack and the leader's "-" both become "0"; any other text keeps its length and every character that is not '-', and has '0' wherever it had '-' |
| Standings.StandingOf | fetch_mlb_data.py:70-80 | a team record's row carries the response's season and its division's name |
| Standings.StandingOfMeans | fetch_mlb_data.py:70-80 | a row is built exactly when the team id and name, wins, losses and winning percentage are present, the percentage converts, and the dash-free games back parses; its columns are then those values |
| Standings.LeaderIsZeroGamesBack | fetch_mlb_data.py:79 | an absent or "-" games back becomes the float of "0" |
| Standings.TeamRecordsFrom | fetch_mlb_data.py:69-80 | the inner loop succeeds exactly when every team record's row can be built; it then appends after the rows already built one row per team record, in order, the k-th being the row of the k-th team record with the division's name and the season |
| Standings.DivisionsFrom | fetch_mlb_data.py:67-80 | the outer loop keeps the rows already built and gives every new row the response's season |
| Standings.DivisionsFromIsOnePerTeam | fetch_mlb_data.py:67-80 | the outer loop, started after rows matching some team records, ends with rows matching those and then every team record of the division records, each with its own division's name; it succeeds whenever the division records list their team records and every such row builds |
| Standings.StandingsAreOnePerTeam | fetch_mlb_data.py:64-80 | the standings hold one row per team record across all division records, in response order: the i-th row is the row of the i-th team record, with its division record's `division.name` and the response's season; they succeed exactly when the response lists its records and every row builds |
| Standings.StandingsShareSeason | fetch_mlb_data.py:64-75 | every row of a response carries the same season: the response's when truthy, else the current year |
| Standings.CollectStandings | fetch_mlb_data.py:64-80 | the two nested loops compute exactly `StandingsOf` |
| Standings.FetchStandings | fetch_mlb_data.py:58-81 | an error while building the rows raises before any call; otherwise the rows are upserted into `standings` on (season, team_id) |
| PlayerStats.MissingStatIsZero | fetch_mlb_data.py:104-110 | an absent or falsy count or rate is 0 |
| PlayerStats.PlayerRecordOfSucceeds | fetch_mlb_data.py:99-111 | a split's record converts exactly when the player, the team and the stat are dicts and each of the nine numeric conversions (two ids, games played, avg, ops, home runs, rbi, era, strikeouts) returns on its value when that value is truthy |
| PlayerStats.PlayerRecordOfValue | fetch_mlb_data.py:99-111 | in a converted record, each id and the name are the converted value when truthy and None otherwise; the season is the current year; each truthy count or rate is `int()` or `float()` of its value |
| PlayerStats.LongIdTextSkips | fetch_mlb_data.py:100-121 | a player id given as text with more digits than the interpreter's limit makes `int()` raise ValueError, which is caught: the split is skipped |
| PlayerStats.HugeAverageAborts | fetch_mlb_data.py:105-119 | an int `avg` too large for a float makes `float()` raise OverflowError, which is not caught: the split ends the fetch |
| PlayerStats.KeptRowDefaults | fetch_mlb_data.py:104-110 | in a built player record, every absent or falsy games played, avg, ops, home runs, rbi, era and strikeouts is 0 |
| PlayerStats.PlayerOf | fetch_mlb_data.py:92-121 | a kept record has a player id, a team id and the current year as season |
| PlayerStats.KeptIffBothIds | fetch_mlb_data.py:100-117 | a split whose record converts is kept exactly when both its player id and its team id are truthy |
| PlayerStats.ConvertedSplitIsKept | fetch_mlb_data.py:99-115 | a split whose record converts and has both ids is appended as exactly that record |
| PlayerStats.MinimalSplitIsKept | fetch_mlb_data.py:92-115 | a split with nonzero player and team ids and an empty stat dict is kept, with no name and every count and rate 0 |
| PlayerStats.ConversionErrorSkips | fetch_mlb_data.py:98-121 | a split whose record raises ValueError or TypeError contributes nothing, and the fetch goes on |
| PlayerStats.SplitsFrom | fetch_mlb_data.py:91-121 | the inner loop succeeds exactly when no split raises out of the fetch; it then appends after the rows already built exactly the rows the splits keep, in split order |
| PlayerStats.EntriesFrom | fetch_mlb_data.py:90-121 | the outer loop keeps the rows already built in front |
| PlayerStats.EntriesFromKeeps | fetch_mlb_data.py:90-121 | the outer loop, started after the kept rows of some splits, ends with the kept rows of those and then of every split of the stats entries, in order; it succeeds whenever the entries list their splits and no split raises |
| PlayerStats.PlayerStatsAreKeptSplits | fetch_mlb_data.py:89-121 | the rows of a response are exactly the kept rows of all its splits, across all stats entries, in response order; they exist exactly when the response lists its splits and no split raises out of the fetch |
| PlayerStats.PlayerStatsAreComplete | fetch_mlb_data.py:99-117 | every row written names a player and a team, with the current year as season |
| PlayerStats.SkippedSplitAddsNothing | fetch_mlb_data.py:114-121 | removing a skipped split from the splits changes nothing: processing goes on with the next split |
| PlayerStats.CollectPlayerStats | fetch_mlb_data.py:89-121 | the two nested loops compute exactly `PlayerStatsOf` |
| PlayerStats.FetchPlayerStats | fetch_mlb_data.py:84-123 | an uncaught error raises before any call; otherwise the rows are upserted into `player_season_stats` on (player_id, season), in that order |
| TeamStats.Hitting | fetch_mlb_data.py:191-199 | a hitting split succeeds exactly when its stat is a dict, each of its five counts is absent or `int()`-convertible, and each of its three rates is absent, falsy or `float()`-convertible; it sets each hitting column from its stat, and leaves identity and pitching columns unchanged |
| TeamStats.Pitching | fetch_mlb_data.py:201-208 | a pitching split succeeds exactly when its stat is a dict, each of its five counts is absent or `int()`-convertible, and each of its two rates is absent, falsy or `float()`-convertible; it sets each pitching column from its stat, and leaves identity and hitting columns unchanged |
| TeamStats.GroupOf | fetch_mlb_data.py:189 | the group name reads exactly when the split and its group are dicts and the display name, if present, is a string; it is that name lower-cased, or "" when absent |
| TeamStats.NullCountRaises | fetch_mlb_data.py:192 | a null games-played count in a hitting split raises TypeError, as `int(None)` does |
| TeamStats.ApplySplit | fetch_mlb_data.py:187-208 | a split gets through exactly when its group reads and, for "hitting" or "pitching", that group's conversions return; "hitting" sets only the hitting columns, "pitching" only the pitching columns, any other group leaves the row as it was; the identity never changes |
| TeamStats.MergeFrom | fetch_mlb_data.py:187-208 | merging any splits keeps the row's season, team, name and timestamp |
| TeamStats.MergeFromSucceeds | fetch_mlb_data.py:187-208 | the split loop gets through exactly when every split does, whatever row it starts from |
| TeamStats.InitialRow | fetch_mlb_data.py:165-185 | the row before any split is built exactly when the team info is a dict; it has every stat column null, the given season and the given timestamp |
| TeamStats.TeamRowOfSucceeds | fetch_mlb_data.py:156-208 | a stats entry's row is built exactly when the entry is a dict and, its splits being a list, the first split's team (if any) is a dict and every split gets through; a non-dict entry raises AttributeError |
| TeamStats.TeamFromFirstSplit | fetch_mlb_data.py:159-168 | the row's team id and name are those of the first split's team (None when absent), whatever the later splits say |
| TeamStats.NoHittingSplitKeepsHittingNull | fetch_mlb_data.py:187-208 | when no split's group is "hitting", every hitting column stays null |
| TeamStats.NoPitchingSplitKeepsPitchingNull | fetch_mlb_data.py:187-208 | when no split's group is "pitching", every pitching column stays null |
| TeamStats.HittingThenPitching | fetch_mlb_data.py:187-208 | a hitting split and then a pitching split whose conversions return combine into one row, with hitting columns from the first and pitching columns from the second |
| TeamStats.BuildTeamRow | fetch_mlb_data.py:157-208 | the row built by updating the row column by column, split by split, is exactly `TeamRowOf` |
| TeamStats.TeamRowOf | fetch_mlb_data.py:157-208 | a merged row carries the season and the run's timestamp |
| TeamStats.WithTeamIdEmpty | fetch_mlb_data.py:210-219 | the filter on team id keeps nothing exactly when no row has a team id |
| TeamStats.TeamsFrom | fetch_mlb_data.py:156-214 | the loop succeeds exactly when every entry's row can be built; it then appends after the rows already built exactly the merged rows that have a team id, in entry order |
| TeamStats.NothingToWriteIffNoTeamId | fetch_mlb_data.py:210-219 | when the rows build, there is nothing to write, and so no store call, exactly when no merged row of the response's stats entries has a team id |
| TeamStats.TeamsFromStamped | fetch_mlb_data.py:156-214 | when every merged row carries the season and the timestamp, so does every row the loop keeps |
| TeamStats.TeamStatsAreKept | fetch_mlb_data.py:156-214 | every row of a team-stats response has a team id, the season and the run's timestamp |
| TeamStats.CollectTeamStats | fetch_mlb_data.py:155-214 | the loop over stats entries computes exactly `TeamStatsOf` |
| TeamStats.FetchTeamStats | fetch_mlb_data.py:145-221 | the season is the given one, else the UTC year; an error raises before any call; no row with a team id means no store call at all; otherwise the rows are upserted into `team_stats` on (season, team_id) |
| DailyGames.TodaysGamesMeans | fetch_mlb_games.py:16 | a response without "dates" has no games; an empty "dates" list raises IndexError; otherwise only the first date block is read |
| DailyGames.DailyGameOf | fetch_mlb_games.py:20-26 | each row's date is the run date |
| DailyGames.DailyGameOfMeans | fetch_mlb_games.py:20-26 | a game's row is built exactly when gamePk, both team names and status.detailedState are present, and it holds those values and the run date; otherwise the game raises |
| DailyGames.RunFrom | fetch_mlb_games.py:19-27 | the loop makes at most one call per game, makes one per game when it succeeds, and every call is a single-row upsert on `games` keyed by `game_id` |
| DailyGames.CallsFor | fetch_mlb_games.py:19-27 | one call per game, for the first k games |
| DailyGames.OneCallPerGame | fetch_mlb_games.py:19-27 | when every game is well formed and accepted, exactly one call per game is made, in list order, and the run succeeds |
| DailyGames.StopsAtBadGame | fetch_mlb_games.py:19-27 | the first game missing a key raises after the calls for the games before it; it and later games are never sent |
| DailyGames.StopsAtRefusal | fetch_mlb_games.py:19-27 | when the store refuses a game's call, that call is the last one made and the run raises |
| DailyGames.SendGames | fetch_mlb_games.py:19-27 | the loop appends to the log exactly the calls of `RunFrom`, and ends as `RunFrom` ends |
| DailyGames.RunDailyGames | fetch_mlb_games.py:14-27 | the script appends to the log exactly the calls of `Run`, and ends as `Run` ends |

## Left out

- Network I/O. `requests.get`, `raise_for_status` and `.json()` are not modelled: the decoded response is an input.
- Environment variables, creating the store client, and what the store does with the rows are not modelled. Whether the store accepts a call is an oracle.
- The clock. `datetime.now`, `date.today()` and `isoformat` become parameters.
- `updated_at` is one timestamp for a run. The source reads the clock once per team row, so each row could get a slightly different time.
- `print` logging, and the message printed in the `except` clauses, are not modelled. In `upsert`, the catch-and-re-raise is only the store's error passed upward.
- The `hasattr(response, "data")` check on the store's answer only chooses what to print, so it is not modelled.
- The `__main__` sequence of the five fetchers, fetch_mlb_data.py:224-229, is the fetchers called one after the other, so it is not modelled.
- IEEE floating point. `float()` of a string is an abstract partial parser, `Builtins.parseFloat`. Floats are reals, and `int()` of a float truncates the real toward zero.
- `repr()` of floats, lists and dicts, which `str()` uses, is an abstract function, `Builtins.repr`.
- Python.ToStr: does not check the digit limit for `str()` of an int. The limit is 0 or at least 640 (`Python.DigitLimit`, the values `sys.set_int_max_str_digits` accepts). `json.loads` applies the same limit to number literals, so no int of a decoded response has too many digits. The ints the fetchers compute from one have no more digits than the limit allows.
- Python.ToInt: `int()` of a float that is infinite or NaN raises OverflowError or ValueError. Floats are reals here, so those values do not occur. `json.loads` accepts `Infinity` and `NaN`, and the model has no value for them.
- Python.ToFloat: `float()` of an int below the overflow bound rounds to the nearest double. The model keeps the exact value, as for all floats.
- Unicode. `lower()` maps ASCII letters only, and `int()` accepts ASCII digits only. Python also accepts other Unicode decimal digits.
- Key text when a dict is iterated. Iterating a dict gives as many strings as it has keys, but not their text. Every loop here then uses the element as a dict, and a string raises, so the text is never read.
- The unused `team` variable of fetch_standings is kept, as in the source. `team_record.get("team", {})` can only raise AttributeError on a non-dict team record, before the strict `team_record["team"]` would raise TypeError. So the model raises AttributeError there, as Python does.
