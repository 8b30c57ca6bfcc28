/** fetch_mlb_games.py: the games of the first date block of today's schedule,
    each written to the `games` table as a single row, one store call per game
    and in the order the response lists them. A game missing one of the keys
    it is read by raises, and so does a refused store call; either ends the
    run, after the calls already made. */
module DailyGames {
  import opened Python
  import opened Access
  import opened Records
  import opened Store

  /** `resp.json().get("dates", [{}])[0].get("games", [])`, iterated. */
  function TodaysGames(doc: Json): Result<seq<Json>> {
    var dates :- Get(doc, "dates", JArr([EmptyObject]));
    var first :- Index0(dates);
    var games :- Get(first, "games", EmptyArray);
    Iter(games)
  }

  /** A response without "dates" has no games; one whose "dates" is an empty
      list raises IndexError; otherwise only the first date block is read. */
  lemma TodaysGamesMeans(doc: Json)
    requires doc.JObj?
    ensures "dates" !in doc.fields ==> TodaysGames(doc) == Ok([])
    ensures "dates" in doc.fields && doc.fields["dates"] == JArr([]) ==> TodaysGames(doc) == Err(IndexError)
    ensures "dates" in doc.fields && doc.fields["dates"].JArr? && |doc.fields["dates"].items| > 0 ==>
      var first := doc.fields["dates"].items[0];
      TodaysGames(doc) == (if first.JObj? then Iter(if "games" in first.fields then first.fields["games"] else EmptyArray)
                           else Err(AttributeError))
  {
  }

  /** The row of one game: every key is read by strict indexing. */
  function DailyGameOf(game: Json, today: string): (r: Result<DailyGameRecord>)
    ensures r.Ok? ==> r.value.date == today
  {
    var id :- Index(game, "gamePk");
    var home :- IndexPath(game, ["teams", "home", "team", "name"]);
    var away :- IndexPath(game, ["teams", "away", "team", "name"]);
    var status :- IndexPath(game, ["status", "detailedState"]);
    Ok(DailyGameRecord(id, today, home, away, status))
  }

  /** A game's row is built exactly when its id, both team names and its
      detailed state are present, and it holds those values. */
  lemma DailyGameOfMeans(game: Json, today: string)
    ensures DailyGameOf(game, today).Ok? <==>
      && game.JObj? && "gamePk" in game.fields
      && HasPath(game, ["teams", "home", "team", "name"])
      && HasPath(game, ["teams", "away", "team", "name"])
      && HasPath(game, ["status", "detailedState"])
    ensures DailyGameOf(game, today).Ok? ==>
      DailyGameOf(game, today).value == DailyGameRecord(
        game.fields["gamePk"], today,
        Dig(game, ["teams", "home", "team", "name"]), Dig(game, ["teams", "away", "team", "name"]),
        Dig(game, ["status", "detailedState"]))
  {
    IndexPathMeans(game, ["teams", "home", "team", "name"]);
    IndexPathMeans(game, ["teams", "away", "team", "name"]);
    IndexPathMeans(game, ["status", "detailedState"]);
  }

  /** `supabase.table("games").upsert(data, on_conflict=["game_id"])`. */
  function GameCall(row: DailyGameRecord): Call {
    Single("games", DailyGame(row), ["game_id"])
  }

  /** The calls a run makes and how it ends. */
  datatype Outcome = Outcome(calls: seq<Call>, result: Result<()>)

  /** The loop over `games`: a missing key stops it before the call, a refused
      call stops it after the call. */
  function RunFrom(games: seq<Json>, today: string, accepts: Call -> bool): (o: Outcome)
    ensures |o.calls| <= |games|
    ensures o.result.Ok? ==> |o.calls| == |games|
    ensures forall i :: 0 <= i < |o.calls| ==>
      o.calls[i].Single? && o.calls[i].table == "games" && o.calls[i].onConflictColumns == ["game_id"]
    decreases |games|
  {
    if games == [] then Outcome([], Ok(()))
    else match DailyGameOf(games[0], today)
      case Err(e) => Outcome([], Err(e))
      case Ok(row) =>
        if accepts(GameCall(row)) then
          var rest := RunFrom(games[1..], today, accepts);
          Outcome([GameCall(row)] + rest.calls, rest.result)
        else Outcome([GameCall(row)], Err(StoreError))
  }

  /** The whole script after the download. */
  function Run(doc: Json, today: string, accepts: Call -> bool): Outcome {
    match TodaysGames(doc)
    case Err(e) => Outcome([], Err(e))
    case Ok(games) => RunFrom(games, today, accepts)
  }

  /** The first `k` games are well formed and their calls are accepted. */
  predicate Sendable(games: seq<Json>, today: string, accepts: Call -> bool, k: nat)
    requires k <= |games|
  {
    forall i :: 0 <= i < k ==> DailyGameOf(games[i], today).Ok? && accepts(GameCall(DailyGameOf(games[i], today).value))
  }

  /** The calls for the first `k` games. */
  function CallsFor(games: seq<Json>, today: string, k: nat): (calls: seq<Call>)
    requires k <= |games|
    requires forall i :: 0 <= i < k ==> DailyGameOf(games[i], today).Ok?
    ensures |calls| == k
  {
    seq(k, i requires 0 <= i < k => GameCall(DailyGameOf(games[i], today).value))
  }

  lemma CallsForTail(games: seq<Json>, today: string, k: nat)
    requires 0 < k <= |games|
    requires forall i :: 0 <= i < k ==> DailyGameOf(games[i], today).Ok?
    ensures CallsFor(games, today, k) == [GameCall(DailyGameOf(games[0], today).value)] + CallsFor(games[1..], today, k - 1)
  {
    assert forall i :: 0 <= i < k - 1 ==> games[1..][i] == games[i + 1];
  }

  lemma CallsForSnoc(games: seq<Json>, today: string, k: nat)
    requires k < |games|
    requires forall i :: 0 <= i <= k ==> DailyGameOf(games[i], today).Ok?
    ensures CallsFor(games, today, k + 1) == CallsFor(games, today, k) + [GameCall(DailyGameOf(games[k], today).value)]
  {
  }

  /** When the first `k` games go through and game `k` is the first that does
      not, the run has made exactly the calls for the first `k` games and then
      ends with that game's error: a bad game is never sent, nor any after it. */
  lemma {:induction false} StopsAtBadGame(games: seq<Json>, today: string, accepts: Call -> bool, k: nat)
    requires k < |games| && Sendable(games, today, accepts, k)
    requires DailyGameOf(games[k], today).Err?
    ensures RunFrom(games, today, accepts) == Outcome(CallsFor(games, today, k), Err(DailyGameOf(games[k], today).error))
    decreases k
  {
    if k > 0 {
      assert games[1..][k - 1] == games[k];
      assert Sendable(games[1..], today, accepts, k - 1) by {
        assert forall i :: 0 <= i < k - 1 ==> games[1..][i] == games[i + 1];
      }
      StopsAtBadGame(games[1..], today, accepts, k - 1);
      CallsForTail(games, today, k);
    }
  }

  /** When the first `k` games go through and the store refuses the call of
      game `k`, that call is the last one made and the run raises StoreError. */
  lemma {:induction false} StopsAtRefusal(games: seq<Json>, today: string, accepts: Call -> bool, k: nat)
    requires k < |games| && Sendable(games, today, accepts, k)
    requires DailyGameOf(games[k], today).Ok? && !accepts(GameCall(DailyGameOf(games[k], today).value))
    ensures RunFrom(games, today, accepts) ==
      Outcome(CallsFor(games, today, k) + [GameCall(DailyGameOf(games[k], today).value)], Err(StoreError))
    decreases k
  {
    if k > 0 {
      assert games[1..][k - 1] == games[k];
      assert Sendable(games[1..], today, accepts, k - 1) by {
        assert forall i :: 0 <= i < k - 1 ==> games[1..][i] == games[i + 1];
      }
      StopsAtRefusal(games[1..], today, accepts, k - 1);
      CallsForTail(games, today, k);
    }
  }

  /** When every game goes through, the run makes one call per game, in the
      order of the response, and succeeds. */
  lemma {:induction false} OneCallPerGame(games: seq<Json>, today: string, accepts: Call -> bool)
    requires Sendable(games, today, accepts, |games|)
    ensures RunFrom(games, today, accepts) == Outcome(CallsFor(games, today, |games|), Ok(()))
    decreases |games|
  {
    if games != [] {
      assert Sendable(games[1..], today, accepts, |games| - 1) by {
        assert forall i :: 0 <= i < |games| - 1 ==> games[1..][i] == games[i + 1];
      }
      OneCallPerGame(games[1..], today, accepts);
      CallsForTail(games, today, |games|);
    }
  }

  /** The script's loop: one store call per game of `games`, in order. */
  method SendGames(client: Client, games: seq<Json>, today: string) returns (r: Result<()>)
    modifies client
    ensures client.log == old(client.log) + RunFrom(games, today, client.accepts).calls
    ensures r == RunFrom(games, today, client.accepts).result
  {
    for i := 0 to |games|
      invariant Sendable(games, today, client.accepts, i)
      invariant client.log == old(client.log) + CallsFor(games, today, i)
    {
      var row := DailyGameOf(games[i], today);
      if row.Err? {
        StopsAtBadGame(games, today, client.accepts, i);
        return Err(row.error);
      }
      var call := GameCall(row.value);
      var answer := client.Execute(call);
      if answer.Err? {
        StopsAtRefusal(games, today, client.accepts, i);
        return answer;
      }
      CallsForSnoc(games, today, i);
    }
    OneCallPerGame(games, today, client.accepts);
    return Ok(());
  }

  /** The script after the download; `today` is the ISO date it reads from the clock. */
  method RunDailyGames(client: Client, doc: Json, today: string) returns (r: Result<()>)
    modifies client
    ensures client.log == old(client.log) + Run(doc, today, client.accepts).calls
    ensures r == Run(doc, today, client.accepts).result
  {
    var todays := TodaysGames(doc);
    if todays.Err? {
      return Err(todays.error);
    }
    r := SendGames(client, todays.value, today);
  }
}
