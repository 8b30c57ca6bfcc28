/** fetch_standings of fetch_mlb_data.py: one `standings` row per team record
    of every division record, tagged with the response's season and the
    division's name. Team fields are read by strict access, so a team record
    missing one raises. */
module Standings {
  import opened Python
  import opened Access
  import opened Records
  import opened Store
  import opened UpsertHelper

  /** `data.get("season") or year`: the response's season when truthy, else the current year. */
  function SeasonOf(data: Json, year: int): (r: Result<Json>)
    ensures r.Ok? <==> data.JObj?
    ensures r.Ok? && "season" in data.fields && Truthy(data.fields["season"]) ==> r.value == data.fields["season"]
    ensures r.Ok? && ("season" !in data.fields || !Truthy(data.fields["season"])) ==> r.value == JInt(year)
  {
    var s :- Get(data, "season", JNull);
    Ok(Or(s, JInt(year)))
  }

  /** The text handed to float() for games_back: "0" when the key is absent,
      and every '-' turned into '0'. */
  function GamesBackText(teamRecord: Json): (r: Result<string>)
    ensures r.Ok? ==> '-' !in r.value
  {
    var gb :- Get(teamRecord, "gamesBack", JStr("0"));
    if gb.JStr? then Ok(Replace(gb.s, '-', '0')) else Err(AttributeError)
  }

  /** An absent gamesBack and the division leader's "-" both give the text "0";
      any other text keeps its length and every character that is not '-', and
      has '0' wherever it had '-'. */
  lemma GamesBackSentinel(teamRecord: Json)
    requires teamRecord.JObj?
    ensures "gamesBack" !in teamRecord.fields ==> GamesBackText(teamRecord) == Ok("0")
    ensures "gamesBack" in teamRecord.fields && teamRecord.fields["gamesBack"] == JStr("-") ==>
      GamesBackText(teamRecord) == Ok("0")
    ensures "gamesBack" in teamRecord.fields && teamRecord.fields["gamesBack"].JStr? ==>
      var text := teamRecord.fields["gamesBack"].s;
      GamesBackText(teamRecord).Ok? && |GamesBackText(teamRecord).value| == |text| &&
      (forall i :: 0 <= i < |text| && text[i] != '-' ==> GamesBackText(teamRecord).value[i] == text[i]) &&
      (forall i :: 0 <= i < |text| && text[i] == '-' ==> GamesBackText(teamRecord).value[i] == '0')
  {
    var zero := Replace("0", '-', '0');
    assert |zero| == 1 && zero[0] == '0';
    assert zero == "0";
    var dash := Replace("-", '-', '0');
    assert |dash| == 1 && dash[0] == '0';
    assert dash == "0";
  }

  /** The row of one team record. */
  function StandingOf(teamRecord: Json, season: Json, division: Json, py: Builtins): (r: Result<StandingRecord>)
    ensures r.Ok? ==> r.value.season == season && r.value.division == division
  {
    var team :- Get(teamRecord, "team", EmptyObject);
    var id :- IndexPath(teamRecord, ["team", "id"]);
    var name :- IndexPath(teamRecord, ["team", "name"]);
    var wins :- Index(teamRecord, "wins");
    var losses :- Index(teamRecord, "losses");
    var pct :- Index(teamRecord, "winningPercentage");
    var winPct :- ToFloat(pct, py);
    var gbText :- GamesBackText(teamRecord);
    var gamesBack :- ToFloat(JStr(gbText), py);
    Ok(StandingRecord(season, id, name, division, wins, losses, winPct, gamesBack))
  }

  /** A team record's row is built exactly when the team's id and name, the
      wins, losses and winning percentage are present, the percentage converts,
      and gamesBack is absent or a string whose '-'-free form parses; its
      columns are then those values and the parsed texts. */
  lemma StandingOfMeans(teamRecord: Json, season: Json, division: Json, py: Builtins)
    ensures StandingOf(teamRecord, season, division, py).Ok? <==>
      && HasPath(teamRecord, ["team", "id"]) && HasPath(teamRecord, ["team", "name"])
      && "wins" in teamRecord.fields && "losses" in teamRecord.fields
      && "winningPercentage" in teamRecord.fields
      && ToFloat(teamRecord.fields["winningPercentage"], py).Ok?
      && GamesBackText(teamRecord).Ok?
      && py.parseFloat(GamesBackText(teamRecord).value).Some?
    ensures StandingOf(teamRecord, season, division, py).Ok? ==>
      StandingOf(teamRecord, season, division, py).value == StandingRecord(
        season, Dig(teamRecord, ["team", "id"]), Dig(teamRecord, ["team", "name"]), division,
        teamRecord.fields["wins"], teamRecord.fields["losses"],
        ToFloat(teamRecord.fields["winningPercentage"], py).value,
        py.parseFloat(GamesBackText(teamRecord).value).value)
  {
    IndexPathMeans(teamRecord, ["team", "id"]);
    IndexPathMeans(teamRecord, ["team", "name"]);
  }

  /** The leader's "-" parses like an absent gamesBack: as "0". */
  lemma LeaderIsZeroGamesBack(m: map<string, Json>, season: Json, division: Json, py: Builtins)
    requires "gamesBack" !in m || m["gamesBack"] == JStr("-")
    requires StandingOf(JObj(m), season, division, py).Ok?
    ensures py.parseFloat("0") == Some(StandingOf(JObj(m), season, division, py).value.games_back)
  {
    GamesBackSentinel(JObj(m));
    StandingOfMeans(JObj(m), season, division, py);
  }

  /** The inner loop: the row of each team record of one division appended to
      `acc`; the first team record whose row fails stops it. */
  function TeamRecordsFrom(acc: seq<StandingRecord>, teamRecords: seq<Json>, season: Json, division: Json,
                           py: Builtins): (r: Result<seq<StandingRecord>>)
    ensures r.Ok? <==> forall i :: 0 <= i < |teamRecords| ==> StandingOf(teamRecords[i], season, division, py).Ok?
    ensures r.Ok? ==> |r.value| == |acc| + |teamRecords| && r.value[..|acc|] == acc
    ensures r.Ok? ==> forall i :: 0 <= i < |teamRecords| ==>
      StandingOf(teamRecords[i], season, division, py) == Ok(r.value[|acc| + i])
    ensures r.Ok? ==> forall i :: |acc| <= i < |r.value| ==>
      r.value[i].season == season && r.value[i].division == division
    decreases |teamRecords|
  {
    if teamRecords == [] then Ok(acc)
    else
      var row :- StandingOf(teamRecords[0], season, division, py);
      var r := TeamRecordsFrom(acc + [row], teamRecords[1..], season, division, py);
      assert r.Ok? ==> forall i :: 1 <= i < |teamRecords| ==> teamRecords[i] == teamRecords[1..][i - 1];
      r
  }

  /** The outer loop over division records. */
  function DivisionsFrom(acc: seq<StandingRecord>, records: seq<Json>, season: Json,
                         py: Builtins): (r: Result<seq<StandingRecord>>)
    ensures r.Ok? ==> |r.value| >= |acc| && r.value[..|acc|] == acc
    ensures r.Ok? ==> forall i :: |acc| <= i < |r.value| ==> r.value[i].season == season
    decreases |records|
  {
    if records == [] then Ok(acc)
    else
      var division :- GetPath(records[0], ["division", "name"]);
      var v :- Get(records[0], "teamRecords", EmptyArray);
      var teamRecords :- Iter(v);
      var acc' :- TeamRecordsFrom(acc, teamRecords, season, division, py);
      var r := DivisionsFrom(acc', records[1..], season, py);
      assert r.Ok? ==> r.value[..|acc|] == r.value[..|acc'|][..|acc|];
      r
  }

  /** The rows built from a standings response. */
  function StandingsOf(data: Json, year: int, py: Builtins): Result<seq<StandingRecord>> {
    var season :- SeasonOf(data, year);
    var v :- Get(data, "records", EmptyArray);
    var records :- Iter(v);
    DivisionsFrom([], records, season, py)
  }

  /** A team record with the name of the division record that lists it. */
  datatype Placed = Placed(teamRecord: Json, division: Json)

  function Under(teamRecords: seq<Json>, division: Json): (r: seq<Placed>)
    ensures |r| == |teamRecords|
  {
    seq(|teamRecords|, i requires 0 <= i < |teamRecords| => Placed(teamRecords[i], division))
  }

  /** The team records of the division records, each with its division's name
      (`division.name`, read by safe access), record after record, after `acc`:
      the reference the standings are measured against. */
  function PlacedFrom(acc: seq<Placed>, records: seq<Json>): Result<seq<Placed>>
    decreases |records|
  {
    if records == [] then Ok(acc)
    else
      var division :- GetPath(records[0], ["division", "name"]);
      var v :- Get(records[0], "teamRecords", EmptyArray);
      var teamRecords :- Iter(v);
      PlacedFrom(acc + Under(teamRecords, division), records[1..])
  }

  /** Every team record of a standings response, across all division records, in order. */
  function AllPlaced(data: Json): Result<seq<Placed>> {
    var v :- Get(data, "records", EmptyArray);
    var records :- Iter(v);
    PlacedFrom([], records)
  }

  /** `rows` holds the row of each placed team record, in the same order. */
  ghost predicate OnePerTeam(placed: seq<Placed>, rows: seq<StandingRecord>, season: Json, py: Builtins) {
    && |rows| == |placed|
    && forall i :: 0 <= i < |placed| ==> StandingOf(placed[i].teamRecord, season, placed[i].division, py) == Ok(rows[i])
  }

  lemma {:induction false} PlacedFromExtends(acc: seq<Placed>, records: seq<Json>)
    ensures PlacedFrom(acc, records).Ok? ==>
      |PlacedFrom(acc, records).value| >= |acc| && PlacedFrom(acc, records).value[..|acc|] == acc
    decreases |records|
  {
    var r := PlacedFrom(acc, records);
    if records != [] && r.Ok? {
      var division := GetPath(records[0], ["division", "name"]).value;
      var teamRecords := Iter(Get(records[0], "teamRecords", EmptyArray).value).value;
      var acc' := acc + Under(teamRecords, division);
      PlacedFromExtends(acc', records[1..]);
      assert r.value[..|acc|] == r.value[..|acc'|][..|acc|];
    }
  }

  lemma {:induction false} DivisionsFromIsOnePerTeam(acc: seq<StandingRecord>, seen: seq<Placed>, records: seq<Json>,
                                                    season: Json, py: Builtins)
    requires OnePerTeam(seen, acc, season, py)
    ensures DivisionsFrom(acc, records, season, py).Ok? ==>
      PlacedFrom(seen, records).Ok? && OnePerTeam(PlacedFrom(seen, records).value, DivisionsFrom(acc, records, season, py).value, season, py)
    ensures (PlacedFrom(seen, records).Ok? &&
             forall i :: 0 <= i < |PlacedFrom(seen, records).value| ==>
               StandingOf(PlacedFrom(seen, records).value[i].teamRecord, season, PlacedFrom(seen, records).value[i].division, py).Ok?)
            ==> DivisionsFrom(acc, records, season, py).Ok?
    decreases |records|
  {
    if records != [] {
      var fd := GetPath(records[0], ["division", "name"]);
      var fv := Get(records[0], "teamRecords", EmptyArray);
      if fd.Ok? && fv.Ok? && Iter(fv.value).Ok? {
        var division := fd.value;
        var teamRecords := Iter(fv.value).value;
        var placed := seen + Under(teamRecords, division);
        var step := TeamRecordsFrom(acc, teamRecords, season, division, py);
        if step.Ok? {
          var acc' := step.value;
          forall i | 0 <= i < |placed|
            ensures StandingOf(placed[i].teamRecord, season, placed[i].division, py) == Ok(acc'[i])
          {
            if i < |seen| {
              assert acc'[i] == acc'[..|acc|][i];
            } else {
              assert placed[i] == Placed(teamRecords[i - |seen|], division);
            }
          }
          DivisionsFromIsOnePerTeam(acc', placed, records[1..], season, py);
        } else if PlacedFrom(seen, records).Ok? {
          var all := PlacedFrom(seen, records).value;
          PlacedFromExtends(placed, records[1..]);
          var k :| 0 <= k < |teamRecords| && !StandingOf(teamRecords[k], season, division, py).Ok?;
          assert all[|seen| + k] == placed[|seen| + k] == Placed(teamRecords[k], division);
        }
      }
    }
  }

  /** The standings are one row per team record across all division records,
      in response order: they succeed exactly when the response lists its
      division records and every team record's row can be built, and then the
      i-th row is the row of the i-th team record, with its own division's
      name and the response's season. */
  lemma StandingsAreOnePerTeam(data: Json, year: int, py: Builtins)
    ensures StandingsOf(data, year, py).Ok? ==>
      AllPlaced(data).Ok? && OnePerTeam(AllPlaced(data).value, StandingsOf(data, year, py).value, SeasonOf(data, year).value, py)
    ensures (SeasonOf(data, year).Ok? && AllPlaced(data).Ok? &&
             forall i :: 0 <= i < |AllPlaced(data).value| ==>
               StandingOf(AllPlaced(data).value[i].teamRecord, SeasonOf(data, year).value, AllPlaced(data).value[i].division, py).Ok?)
            ==> StandingsOf(data, year, py).Ok?
  {
    var v := Get(data, "records", EmptyArray);
    if SeasonOf(data, year).Ok? && v.Ok? && Iter(v.value).Ok? {
      DivisionsFromIsOnePerTeam([], [], Iter(v.value).value, SeasonOf(data, year).value, py);
    }
  }

  /** Every row of a standings response carries the same season: the response's
      when truthy, else the current year. */
  lemma StandingsShareSeason(data: Json, year: int, py: Builtins)
    requires StandingsOf(data, year, py).Ok?
    ensures forall row <- StandingsOf(data, year, py).value ::
      row.season == (if "season" in data.fields && Truthy(data.fields["season"]) then data.fields["season"] else JInt(year))
  {
    var rows := StandingsOf(data, year, py).value;
    forall row <- rows
      ensures row.season == SeasonOf(data, year).value
    {
      var i :| 0 <= i < |rows| && rows[i] == row;
    }
  }

  /** The two loops of fetch_standings. */
  method CollectStandings(data: Json, year: int, py: Builtins) returns (r: Result<seq<StandingRecord>>)
    ensures r == StandingsOf(data, year, py)
  {
    var season :- SeasonOf(data, year);
    var v := Get(data, "records", EmptyArray).value;  // data is a dict once its season was read
    var records :- Iter(v);
    var out: seq<StandingRecord> := [];
    for i := 0 to |records|
      invariant DivisionsFrom([], records, season, py) == DivisionsFrom(out, records[i..], season, py)
    {
      var division :- GetPath(records[i], ["division", "name"]);
      var w :- Get(records[i], "teamRecords", EmptyArray);
      var teamRecords :- Iter(w);
      assert records[i..][1..] == records[i + 1..];
      ghost var start := out;
      for j := 0 to |teamRecords|
        invariant TeamRecordsFrom(start, teamRecords, season, division, py) ==
                  TeamRecordsFrom(out, teamRecords[j..], season, division, py)
      {
        assert teamRecords[j..][1..] == teamRecords[j + 1..];
        var row :- StandingOf(teamRecords[j], season, division, py);
        out := out + [row];
      }
    }
    return Ok(out);
  }

  function StandingRows(rows: seq<StandingRecord>): (r: seq<Row>)
    ensures |r| == |rows| && forall i :: 0 <= i < |rows| ==> r[i] == Standing(rows[i])
  {
    seq(|rows|, i requires 0 <= i < |rows| => Standing(rows[i]))
  }

  /** fetch_standings: the rows upserted into `standings` on (season, team_id). */
  method FetchStandings(client: Client, data: Json, year: int, py: Builtins) returns (r: Result<()>)
    modifies client
    ensures StandingsOf(data, year, py).Err? ==>
      r == Err(StandingsOf(data, year, py).error) && client.log == old(client.log)
    ensures StandingsOf(data, year, py).Ok? ==>
      Upserted(old(client.log), client.log, client.accepts, "standings",
               StandingRows(StandingsOf(data, year, py).value), ["season", "team_id"], r)
  {
    var rows :- CollectStandings(data, year, py);
    r := Upsert(client, "standings", StandingRows(rows), ["season", "team_id"]);
  }
}
