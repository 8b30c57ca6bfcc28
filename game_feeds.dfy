/** fetch_games and fetch_schedule of fetch_mlb_data.py: one row per game,
    across every date block of a schedule response, in response order. Both
    walk the response the same way and differ only in the row built from a
    game, so the walk is written once, over the row builder `f`. */
module GameFeeds {
  import opened Python
  import opened Access
  import opened Records
  import opened Store
  import opened UpsertHelper

  /** The `games` row of one game: each column by safe access. */
  function GameOf(game: Json): Result<GameRecord> {
    var id :- GetPath(game, ["gamePk"]);
    var date :- GetPath(game, ["gameDate"]);
    var status :- GetPath(game, ["status", "detailedState"]);
    var home :- GetPath(game, ["teams", "home", "team", "name"]);
    var away :- GetPath(game, ["teams", "away", "team", "name"]);
    var homeScore :- GetPath(game, ["teams", "home", "score"]);
    var awayScore :- GetPath(game, ["teams", "away", "score"]);
    Ok(GameRecord(id, date, status, home, away, homeScore, awayScore))
  }

  /** The `schedule` row of one game: id, date and team names only. */
  function ScheduleEntryOf(game: Json): Result<ScheduleRecord> {
    var id :- GetPath(game, ["gamePk"]);
    var date :- GetPath(game, ["gameDate"]);
    var home :- GetPath(game, ["teams", "home", "team", "name"]);
    var away :- GetPath(game, ["teams", "away", "team", "name"]);
    Ok(ScheduleRecord(id, date, home, away))
  }

  /** The game's nested values that safe access passes through are dicts where present. */
  predicate WellShaped(game: Json) {
    && ObjectsAlong(game, ["status", "detailedState"])
    && ObjectsAlong(game, ["teams", "home", "team", "name"])
    && ObjectsAlong(game, ["teams", "away", "team", "name"])
  }

  /** A game row never fails on a missing key: it fails only when a value it
      passes through is present and not a dict, and each column is the value at
      the end of its path, or null when a key on the way is missing. */
  lemma GameOfMeans(game: Json)
    ensures GameOf(game).Ok? <==> WellShaped(game)
    ensures GameOf(game).Ok? ==> GameOf(game).value == GameRecord(
      Dig(game, ["gamePk"]), Dig(game, ["gameDate"]), Dig(game, ["status", "detailedState"]),
      Dig(game, ["teams", "home", "team", "name"]), Dig(game, ["teams", "away", "team", "name"]),
      Dig(game, ["teams", "home", "score"]), Dig(game, ["teams", "away", "score"]))
  {
    GetPathMeans(game, ["gamePk"]);
    GetPathMeans(game, ["gameDate"]);
    GetPathMeans(game, ["status", "detailedState"]);
    GetPathMeans(game, ["teams", "home", "team", "name"]);
    GetPathMeans(game, ["teams", "away", "team", "name"]);
    GetPathMeans(game, ["teams", "home", "score"]);
    GetPathMeans(game, ["teams", "away", "score"]);
  }

  /** The same for a schedule row. */
  lemma ScheduleEntryOfMeans(game: Json)
    ensures ScheduleEntryOf(game).Ok? <==>
      game.JObj? && ObjectsAlong(game, ["teams", "home", "team", "name"])
                 && ObjectsAlong(game, ["teams", "away", "team", "name"])
    ensures ScheduleEntryOf(game).Ok? ==> ScheduleEntryOf(game).value == ScheduleRecord(
      Dig(game, ["gamePk"]), Dig(game, ["gameDate"]),
      Dig(game, ["teams", "home", "team", "name"]), Dig(game, ["teams", "away", "team", "name"]))
  {
    GetPathMeans(game, ["gamePk"]);
    GetPathMeans(game, ["gameDate"]);
    GetPathMeans(game, ["teams", "home", "team", "name"]);
    GetPathMeans(game, ["teams", "away", "team", "name"]);
  }

  /** `records` holds f's row of each of `games`, in the same order. */
  ghost predicate OnePerGame<T>(f: Json -> Result<T>, games: seq<Json>, records: seq<T>) {
    && |records| == |games|
    && forall i :: 0 <= i < |games| ==> f(games[i]) == Ok(records[i])
  }

  /** The inner loop: f's row of each game appended to `acc`; the first game
      whose row fails stops it. */
  function RecordsFrom<T>(f: Json -> Result<T>, acc: seq<T>, games: seq<Json>): (r: Result<seq<T>>)
    ensures r.Ok? <==> forall i :: 0 <= i < |games| ==> f(games[i]).Ok?
    ensures r.Ok? ==> |r.value| == |acc| + |games| && r.value[..|acc|] == acc
    ensures r.Ok? ==> forall i :: 0 <= i < |games| ==> f(games[i]) == Ok(r.value[|acc| + i])
    decreases |games|
  {
    if games == [] then Ok(acc)
    else
      var x :- f(games[0]);
      var r := RecordsFrom(f, acc + [x], games[1..]);
      assert r.Ok? ==> forall i :: 1 <= i < |games| ==> games[i] == games[1..][i - 1];
      r
  }

  /** The outer loop over date blocks. */
  function FeedFrom<T>(f: Json -> Result<T>, acc: seq<T>, dates: seq<Json>): Result<seq<T>>
    decreases |dates|
  {
    if dates == [] then Ok(acc)
    else
      var v :- Get(dates[0], "games", EmptyArray);
      var games :- Iter(v);
      var acc' :- RecordsFrom(f, acc, games);
      FeedFrom(f, acc', dates[1..])
  }

  /** The rows built from a schedule response. */
  function Feed<T>(f: Json -> Result<T>, data: Json): Result<seq<T>> {
    var v :- Get(data, "dates", EmptyArray);
    var dates :- Iter(v);
    FeedFrom(f, [], dates)
  }

  /** Every game of a schedule response, across all date blocks, in order. */
  function AllGames(data: Json): Result<seq<Json>> {
    var v :- Get(data, "dates", EmptyArray);
    var dates :- Iter(v);
    ItemsFrom("games", [], dates)
  }

  lemma {:induction false} FeedFromIsOnePerGame<T>(f: Json -> Result<T>, acc: seq<T>, seen: seq<Json>, dates: seq<Json>)
    requires OnePerGame(f, seen, acc)
    ensures FeedFrom(f, acc, dates).Ok? ==>
      ItemsFrom("games", seen, dates).Ok? && OnePerGame(f, ItemsFrom("games", seen, dates).value, FeedFrom(f, acc, dates).value)
    ensures (ItemsFrom("games", seen, dates).Ok? &&
             forall i :: 0 <= i < |ItemsFrom("games", seen, dates).value| ==> f(ItemsFrom("games", seen, dates).value[i]).Ok?)
            ==> FeedFrom(f, acc, dates).Ok?
    decreases |dates|
  {
    if dates != [] {
      var fv := Get(dates[0], "games", EmptyArray);
      if fv.Ok? && Iter(fv.value).Ok? {
        var games := Iter(fv.value).value;
        var step := RecordsFrom(f, acc, games);
        var all := ItemsFrom("games", seen, dates);
        if step.Ok? {
          var acc' := step.value;
          forall i | 0 <= i < |seen + games| ensures f((seen + games)[i]) == Ok(acc'[i]) {
            if i < |seen| {
              assert acc'[i] == acc'[..|acc|][i];
            } else {
              assert (seen + games)[i] == games[i - |seen|];
            }
          }
          FeedFromIsOnePerGame(f, acc', seen + games, dates[1..]);
        } else if all.Ok? {
          ItemsFromExtends("games", seen + games, dates[1..]);
          var k :| 0 <= k < |games| && !f(games[k]).Ok?;
          assert all.value[|seen| + k] == games[k];
        }
      }
    }
  }

  /** The feed is one row per game across all date blocks, in response order:
      it succeeds exactly when the response lists its games and every game's
      row can be built, and then its i-th row is the row of the i-th game. */
  lemma FeedIsOnePerGame<T>(f: Json -> Result<T>, data: Json)
    ensures Feed(f, data).Ok? ==> AllGames(data).Ok? && OnePerGame(f, AllGames(data).value, Feed(f, data).value)
    ensures (AllGames(data).Ok? && forall i :: 0 <= i < |AllGames(data).value| ==> f(AllGames(data).value[i]).Ok?)
            ==> Feed(f, data).Ok?
  {
    var v := Get(data, "dates", EmptyArray);
    if v.Ok? && Iter(v.value).Ok? {
      FeedFromIsOnePerGame(f, [], [], Iter(v.value).value);
    }
  }

  /** The two loops of fetch_games and fetch_schedule, with `f` building the row. */
  method CollectFeed<T>(f: Json -> Result<T>, data: Json) returns (r: Result<seq<T>>)
    ensures r == Feed(f, data)
  {
    var v :- Get(data, "dates", EmptyArray);
    var dates :- Iter(v);
    var out: seq<T> := [];
    for i := 0 to |dates|
      invariant FeedFrom(f, [], dates) == FeedFrom(f, out, dates[i..])
    {
      var w :- Get(dates[i], "games", EmptyArray);
      var games :- Iter(w);
      assert dates[i..][1..] == dates[i + 1..];
      ghost var start := out;
      for j := 0 to |games|
        invariant RecordsFrom(f, start, games) == RecordsFrom(f, out, games[j..])
      {
        assert games[j..][1..] == games[j + 1..];
        var row :- f(games[j]);
        out := out + [row];
      }
    }
    return Ok(out);
  }

  function GameRows(games: seq<GameRecord>): (rows: seq<Row>)
    ensures |rows| == |games| && forall i :: 0 <= i < |games| ==> rows[i] == Game(games[i])
  {
    seq(|games|, i requires 0 <= i < |games| => Game(games[i]))
  }

  function ScheduleRows(entries: seq<ScheduleRecord>): (rows: seq<Row>)
    ensures |rows| == |entries| && forall i :: 0 <= i < |entries| ==> rows[i] == Schedule(entries[i])
  {
    seq(|entries|, i requires 0 <= i < |entries| => Schedule(entries[i]))
  }

  /** fetch_games: the rows of today's schedule, upserted into `games` on `game_id`. */
  method FetchGames(client: Client, data: Json) returns (r: Result<()>)
    modifies client
    ensures Feed(GameOf, data).Err? ==> r == Err(Feed(GameOf, data).error) && client.log == old(client.log)
    ensures Feed(GameOf, data).Ok? ==>
      Upserted(old(client.log), client.log, client.accepts, "games", GameRows(Feed(GameOf, data).value), ["game_id"], r)
  {
    var games :- CollectFeed(GameOf, data);
    r := Upsert(client, "games", GameRows(games), ["game_id"]);
  }

  /** fetch_schedule: the rows of the coming week, upserted into `schedule` on `game_id`. */
  method FetchSchedule(client: Client, data: Json) returns (r: Result<()>)
    modifies client
    ensures Feed(ScheduleEntryOf, data).Err? ==> r == Err(Feed(ScheduleEntryOf, data).error) && client.log == old(client.log)
    ensures Feed(ScheduleEntryOf, data).Ok? ==>
      Upserted(old(client.log), client.log, client.accepts, "schedule",
               ScheduleRows(Feed(ScheduleEntryOf, data).value), ["game_id"], r)
  {
    var entries :- CollectFeed(ScheduleEntryOf, data);
    r := Upsert(client, "schedule", ScheduleRows(entries), ["game_id"]);
  }
}
