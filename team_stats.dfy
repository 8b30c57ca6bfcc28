/** fetch_team_stats of fetch_mlb_data.py: one `team_stats` row per stats
    entry, merged from its splits. The row starts from the team of the first
    split with every stat column null; a "hitting" split fills the hitting
    columns, a "pitching" split the pitching columns, and any other group
    (fielding among them) changes nothing. Rows without a team id are dropped,
    and when none remain nothing is written. */
module TeamStats {
  import opened Python
  import opened Access
  import opened Records
  import opened Store
  import opened UpsertHelper

  /** `int(stats.get(key, 0))` returns: the key is absent, or int() of its
      value returns (so a present null is a TypeError). */
  predicate IntStatConverts(stats: Json, key: string, py: Builtins)
    requires stats.JObj?
  {
    key in stats.fields ==> ToInt(stats.fields[key], py).Ok?
  }

  /** `float(stats.get(key, 0) or 0)` returns: the value is absent or falsy,
      or float() of it returns. */
  predicate RateStatConverts(stats: Json, key: string, py: Builtins)
    requires stats.JObj?
  {
    key in stats.fields && Truthy(stats.fields[key]) ==> ToFloat(stats.fields[key], py).Ok?
  }

  /** `int(stats.get(key, 0))`: a null value raises TypeError. */
  function IntStat(stats: Json, key: string, py: Builtins): (r: Result<int>)
    ensures r.Ok? <==> stats.JObj? && IntStatConverts(stats, key, py)
    ensures r.Ok? ==> r.value == (if key in stats.fields then ToInt(stats.fields[key], py).value else 0)
  {
    var v :- Get(stats, key, JInt(0));
    ToInt(v, py)
  }

  /** `float(stats.get(key, 0) or 0)`. */
  function RateStat(stats: Json, key: string, py: Builtins): (r: Result<real>)
    ensures r.Ok? <==> stats.JObj? && RateStatConverts(stats, key, py)
    ensures r.Ok? ==> r.value == (if key in stats.fields && Truthy(stats.fields[key])
                                  then ToFloat(stats.fields[key], py).value else 0.0)
  {
    var v :- Get(stats, key, JInt(0));
    ToFloat(Or(v, JInt(0)), py)
  }

  /** A hitting split's stat is a dict and its eight conversions return. */
  predicate HittingConverts(stats: Json, py: Builtins) {
    && stats.JObj?
    && IntStatConverts(stats, "gamesPlayed", py) && IntStatConverts(stats, "runs", py)
    && IntStatConverts(stats, "homeRuns", py) && RateStatConverts(stats, "avg", py)
    && RateStatConverts(stats, "obp", py) && RateStatConverts(stats, "slg", py)
    && IntStatConverts(stats, "stolenBases", py) && IntStatConverts(stats, "caughtStealing", py)
  }

  /** A pitching split's stat is a dict and its seven conversions return. */
  predicate PitchingConverts(stats: Json, py: Builtins) {
    && stats.JObj?
    && IntStatConverts(stats, "wins", py) && IntStatConverts(stats, "losses", py)
    && RateStatConverts(stats, "winPercentage", py) && RateStatConverts(stats, "era", py)
    && IntStatConverts(stats, "strikeOuts", py) && IntStatConverts(stats, "baseOnBalls", py)
    && IntStatConverts(stats, "runs", py)
  }

  /** The columns a row keeps whatever its splits. */
  predicate SameIdentity(a: TeamStatRecord, b: TeamStatRecord) {
    a.season == b.season && a.team_id == b.team_id && a.team_name == b.team_name && a.updated_at == b.updated_at
  }

  /** `field` holds the value of a conversion that succeeded. */
  predicate Holds<T(==)>(field: Option<T>, conversion: Result<T>) {
    conversion.Ok? && field == Some(conversion.value)
  }

  /** The columns a hitting split sets. */
  predicate SameHitting(a: TeamStatRecord, b: TeamStatRecord) {
    && a.games_played == b.games_played && a.runs_scored == b.runs_scored && a.home_runs == b.home_runs
    && a.batting_avg == b.batting_avg && a.obp == b.obp && a.slg == b.slg
    && a.stolen_bases == b.stolen_bases && a.caught_stealing == b.caught_stealing
  }

  /** The columns a pitching split sets. */
  predicate SamePitching(a: TeamStatRecord, b: TeamStatRecord) {
    && a.wins == b.wins && a.losses == b.losses && a.win_percentage == b.win_percentage && a.era == b.era
    && a.strikeouts == b.strikeouts && a.walks == b.walks && a.runs_allowed == b.runs_allowed
  }

  predicate HittingNull(row: TeamStatRecord) {
    && row.games_played.None? && row.runs_scored.None? && row.home_runs.None? && row.batting_avg.None?
    && row.obp.None? && row.slg.None? && row.stolen_bases.None? && row.caught_stealing.None?
  }

  predicate PitchingNull(row: TeamStatRecord) {
    && row.wins.None? && row.losses.None? && row.win_percentage.None? && row.era.None?
    && row.strikeouts.None? && row.walks.None? && row.runs_allowed.None?
  }

  /** The hitting columns taken from a hitting split's stats. */
  predicate HittingFrom(row: TeamStatRecord, stats: Json, py: Builtins) {
    && Holds(row.games_played, IntStat(stats, "gamesPlayed", py))
    && Holds(row.runs_scored, IntStat(stats, "runs", py))
    && Holds(row.home_runs, IntStat(stats, "homeRuns", py))
    && Holds(row.batting_avg, RateStat(stats, "avg", py))
    && Holds(row.obp, RateStat(stats, "obp", py))
    && Holds(row.slg, RateStat(stats, "slg", py))
    && Holds(row.stolen_bases, IntStat(stats, "stolenBases", py))
    && Holds(row.caught_stealing, IntStat(stats, "caughtStealing", py))
  }

  /** The pitching columns taken from a pitching split's stats. */
  predicate PitchingFrom(row: TeamStatRecord, stats: Json, py: Builtins) {
    && Holds(row.wins, IntStat(stats, "wins", py))
    && Holds(row.losses, IntStat(stats, "losses", py))
    && Holds(row.win_percentage, RateStat(stats, "winPercentage", py))
    && Holds(row.era, RateStat(stats, "era", py))
    && Holds(row.strikeouts, IntStat(stats, "strikeOuts", py))
    && Holds(row.walks, IntStat(stats, "baseOnBalls", py))
    && Holds(row.runs_allowed, IntStat(stats, "runs", py))
  }

  function Hitting(row: TeamStatRecord, stats: Json, py: Builtins): (r: Result<TeamStatRecord>)
    ensures r.Ok? <==> HittingConverts(stats, py)
    ensures r.Ok? ==> SameIdentity(row, r.value) && SamePitching(row, r.value) && HittingFrom(r.value, stats, py)
  {
    var gamesPlayed :- IntStat(stats, "gamesPlayed", py);
    var runs :- IntStat(stats, "runs", py);
    var homeRuns :- IntStat(stats, "homeRuns", py);
    var avg :- RateStat(stats, "avg", py);
    var obp :- RateStat(stats, "obp", py);
    var slg :- RateStat(stats, "slg", py);
    var stolenBases :- IntStat(stats, "stolenBases", py);
    var caughtStealing :- IntStat(stats, "caughtStealing", py);
    Ok(row.(games_played := Some(gamesPlayed), runs_scored := Some(runs), home_runs := Some(homeRuns),
            batting_avg := Some(avg), obp := Some(obp), slg := Some(slg),
            stolen_bases := Some(stolenBases), caught_stealing := Some(caughtStealing)))
  }

  function Pitching(row: TeamStatRecord, stats: Json, py: Builtins): (r: Result<TeamStatRecord>)
    ensures r.Ok? <==> PitchingConverts(stats, py)
    ensures r.Ok? ==> SameIdentity(row, r.value) && SameHitting(row, r.value) && PitchingFrom(r.value, stats, py)
  {
    var wins :- IntStat(stats, "wins", py);
    var losses :- IntStat(stats, "losses", py);
    var winPct :- RateStat(stats, "winPercentage", py);
    var era :- RateStat(stats, "era", py);
    var strikeouts :- IntStat(stats, "strikeOuts", py);
    var walks :- IntStat(stats, "baseOnBalls", py);
    var runsAllowed :- IntStat(stats, "runs", py);
    Ok(row.(wins := Some(wins), losses := Some(losses), win_percentage := Some(winPct), era := Some(era),
            strikeouts := Some(strikeouts), walks := Some(walks), runs_allowed := Some(runsAllowed)))
  }

  /** The group dict of a split, {} when absent. */
  function GroupDict(split: Json): Json
    requires split.JObj?
  {
    if "group" in split.fields then split.fields["group"] else EmptyObject
  }

  /** `split.get("group", {}).get("displayName", "").lower()`: it returns
      exactly when the split and its group are dicts and the display name, if
      present, is a string; an absent name gives "". */
  function GroupOf(split: Json): (r: Result<string>)
    ensures r.Ok? <==>
      split.JObj? && GroupDict(split).JObj? &&
      ("displayName" in GroupDict(split).fields ==> GroupDict(split).fields["displayName"].JStr?)
    ensures r.Ok? && "displayName" !in GroupDict(split).fields ==> r.value == ""
    ensures r.Ok? && "displayName" in GroupDict(split).fields ==> r.value == Lower(GroupDict(split).fields["displayName"].s)
  {
    var group :- Get(split, "group", EmptyObject);
    var name :- Get(group, "displayName", JStr(""));
    if name.JStr? then Ok(Lower(name.s)) else Err(AttributeError)
  }

  /** A split the loop gets through: its group reads, and a hitting or
      pitching split's conversions return. Other groups need nothing more. */
  predicate SplitApplies(split: Json, py: Builtins) {
    && GroupOf(split).Ok?
    && (GroupOf(split).value == "hitting" ==> HittingConverts(Get(split, "stat", EmptyObject).value, py))
    && (GroupOf(split).value == "pitching" ==> PitchingConverts(Get(split, "stat", EmptyObject).value, py))
  }

  /** One pass of the split loop. */
  function ApplySplit(row: TeamStatRecord, split: Json, py: Builtins): (r: Result<TeamStatRecord>)
    ensures r.Ok? <==> SplitApplies(split, py)
    ensures r.Ok? ==> SameIdentity(row, r.value)
    ensures r.Ok? && GroupOf(split) == Ok("hitting") ==>
      SamePitching(row, r.value) && HittingFrom(r.value, Get(split, "stat", EmptyObject).value, py)
    ensures r.Ok? && GroupOf(split) == Ok("pitching") ==>
      SameHitting(row, r.value) && PitchingFrom(r.value, Get(split, "stat", EmptyObject).value, py)
    ensures GroupOf(split).Ok? && GroupOf(split).value != "hitting" && GroupOf(split).value != "pitching" ==>
      r == Ok(row)
  {
    var group :- GroupOf(split);
    var stats := Get(split, "stat", EmptyObject).value;  // split is a dict once its group was read
    if group == "hitting" then Hitting(row, stats, py)
    else if group == "pitching" then Pitching(row, stats, py)
    else Ok(row)
  }

  /** The split loop, from `row` on. */
  function MergeFrom(row: TeamStatRecord, splits: seq<Json>, py: Builtins): (r: Result<TeamStatRecord>)
    ensures r.Ok? ==> SameIdentity(row, r.value)
    decreases |splits|
  {
    if splits == [] then Ok(row)
    else
      var row' :- ApplySplit(row, splits[0], py);
      MergeFrom(row', splits[1..], py)
  }

  /** The split loop gets through exactly when every split does, whatever
      the row it starts from. */
  lemma {:induction false} MergeFromSucceeds(row: TeamStatRecord, splits: seq<Json>, py: Builtins)
    ensures MergeFrom(row, splits, py).Ok? <==> forall i :: 0 <= i < |splits| ==> SplitApplies(splits[i], py)
    decreases |splits|
  {
    if splits != [] {
      assert forall i :: 1 <= i < |splits| ==> splits[i] == splits[1..][i - 1];
      if SplitApplies(splits[0], py) {
        MergeFromSucceeds(ApplySplit(row, splits[0], py).value, splits[1..], py);
      }
    }
  }

  /** `team_info`: the team of the first split, or {} when there are no splits. */
  function TeamInfo(splits: Json): Result<Json> {
    if Truthy(splits) then
      var first :- Index0(splits);
      Get(first, "team", EmptyObject)
    else Ok(EmptyObject)
  }

  /** The row before any split: the team's identity, every stat column null. */
  function InitialRow(info: Json, season: int, updatedAt: string): (r: Result<TeamStatRecord>)
    ensures r.Ok? <==> info.JObj?
    ensures r.Ok? ==> r.value.season == season && r.value.updated_at == updatedAt
    ensures r.Ok? ==> HittingNull(r.value) && PitchingNull(r.value)
  {
    var id :- Get(info, "id", JNull);
    var name := Get(info, "name", JNull).value;  // info is a dict once its id was read
    Ok(TeamStatRecord(season, id, name, None, None, None, None, None, None, None,
                      None, None, None, None, None, None, None, None, updatedAt))
  }

  /** The merged row of one stats entry. */
  function TeamRowOf(team: Json, season: int, updatedAt: string, py: Builtins): (r: Result<TeamStatRecord>)
    ensures r.Ok? ==> r.value.season == season && r.value.updated_at == updatedAt
  {
    var splitsValue :- Get(team, "splits", EmptyArray);
    var info :- TeamInfo(splitsValue);
    var row :- InitialRow(info, season, updatedAt);
    var splits :- Iter(splitsValue);
    MergeFrom(row, splits, py)
  }

  /** A stats entry's row is built exactly when the entry is a dict and, its
      splits being a list, the first split's team (if any) is a dict and
      every split gets through; a non-dict entry raises AttributeError. */
  lemma TeamRowOfSucceeds(team: Json, season: int, updatedAt: string, py: Builtins)
    ensures !team.JObj? ==> TeamRowOf(team, season, updatedAt, py) == Err(AttributeError)
    ensures team.JObj? ==>
      var v := if "splits" in team.fields then team.fields["splits"] else EmptyArray;
      v.JArr? ==>
        (TeamRowOf(team, season, updatedAt, py).Ok? <==>
          && (v.items != [] ==> v.items[0].JObj? && ("team" in v.items[0].fields ==> v.items[0].fields["team"].JObj?))
          && forall i :: 0 <= i < |v.items| ==> SplitApplies(v.items[i], py))
  {
    if team.JObj? {
      var v := if "splits" in team.fields then team.fields["splits"] else EmptyArray;
      if v.JArr? && TeamInfo(v).Ok? && InitialRow(TeamInfo(v).value, season, updatedAt).Ok? {
        MergeFromSucceeds(InitialRow(TeamInfo(v).value, season, updatedAt).value, v.items, py);
      }
    }
  }

  /** A null count in a hitting split raises TypeError, as `int(None)` does. */
  lemma NullCountRaises(row: TeamStatRecord, stats: Json, py: Builtins)
    requires stats.JObj? && "gamesPlayed" in stats.fields && stats.fields["gamesPlayed"] == JNull
    ensures Hitting(row, stats, py) == Err(TypeError)
  {
  }

  /** The row's team is the team of the first split, whatever the other splits say. */
  lemma TeamFromFirstSplit(team: Json, season: int, updatedAt: string, py: Builtins)
    requires team.JObj? && "splits" in team.fields
    requires TeamRowOf(team, season, updatedAt, py).Ok?
    requires team.fields["splits"].JArr? && |team.fields["splits"].items| > 0
    ensures var first := team.fields["splits"].items[0];
      var info := if first.JObj? && "team" in first.fields then first.fields["team"] else EmptyObject;
      var row := TeamRowOf(team, season, updatedAt, py).value;
      && info.JObj?
      && row.team_id == (if "id" in info.fields then info.fields["id"] else JNull)
      && row.team_name == (if "name" in info.fields then info.fields["name"] else JNull)
      && row.season == season && row.updated_at == updatedAt
  {
  }

  /** Splits none of whose groups is "hitting" leave every hitting column null. */
  lemma {:induction false} NoHittingSplitKeepsHittingNull(row: TeamStatRecord, splits: seq<Json>, py: Builtins)
    requires HittingNull(row)
    requires forall i :: 0 <= i < |splits| ==> GroupOf(splits[i]) != Ok("hitting")
    requires MergeFrom(row, splits, py).Ok?
    ensures HittingNull(MergeFrom(row, splits, py).value)
    decreases |splits|
  {
    if splits != [] {
      var row' := ApplySplit(row, splits[0], py).value;
      assert GroupOf(splits[0]).Ok? && GroupOf(splits[0]).value != "hitting";
      if GroupOf(splits[0]).value == "pitching" {
        assert SameHitting(row, row');
      }
      NoHittingSplitKeepsHittingNull(row', splits[1..], py);
    }
  }

  /** Splits none of whose groups is "pitching" leave every pitching column null. */
  lemma {:induction false} NoPitchingSplitKeepsPitchingNull(row: TeamStatRecord, splits: seq<Json>, py: Builtins)
    requires PitchingNull(row)
    requires forall i :: 0 <= i < |splits| ==> GroupOf(splits[i]) != Ok("pitching")
    requires MergeFrom(row, splits, py).Ok?
    ensures PitchingNull(MergeFrom(row, splits, py).value)
    decreases |splits|
  {
    if splits != [] {
      var row' := ApplySplit(row, splits[0], py).value;
      assert GroupOf(splits[0]).Ok? && GroupOf(splits[0]).value != "pitching";
      if GroupOf(splits[0]).value == "hitting" {
        assert SamePitching(row, row');
      }
      NoPitchingSplitKeepsPitchingNull(row', splits[1..], py);
    }
  }

  /** A hitting split followed by a pitching split gives a row with the
      hitting columns of the first and the pitching columns of the second. */
  lemma HittingThenPitching(row: TeamStatRecord, hitting: Json, pitching: Json, py: Builtins)
    requires GroupOf(hitting) == Ok("hitting") && GroupOf(pitching) == Ok("pitching")
    requires HittingConverts(Get(hitting, "stat", EmptyObject).value, py)
    requires PitchingConverts(Get(pitching, "stat", EmptyObject).value, py)
    ensures MergeFrom(row, [hitting, pitching], py).Ok?
    ensures var merged := MergeFrom(row, [hitting, pitching], py).value;
      && SameIdentity(row, merged)
      && HittingFrom(merged, Get(hitting, "stat", EmptyObject).value, py)
      && PitchingFrom(merged, Get(pitching, "stat", EmptyObject).value, py)
  {
    var mid := ApplySplit(row, hitting, py).value;
    var merged := ApplySplit(mid, pitching, py).value;
    assert [hitting, pitching][1..] == [pitching];
    assert MergeFrom(mid, [pitching], py) == Ok(merged);
    assert SameHitting(mid, merged);
  }

  /** The merged row of one stats entry, built as the source builds it: the
      row dict is filled in and then updated column by column, split by split. */
  method BuildTeamRow(team: Json, season: int, updatedAt: string, py: Builtins) returns (r: Result<TeamStatRecord>)
    ensures r == TeamRowOf(team, season, updatedAt, py)
  {
    var splitsValue :- Get(team, "splits", EmptyArray);
    var info := EmptyObject;
    if Truthy(splitsValue) {
      var first :- Index0(splitsValue);
      info :- Get(first, "team", EmptyObject);
    }
    var row :- InitialRow(info, season, updatedAt);
    var splits :- Iter(splitsValue);
    ghost var start := row;
    for i := 0 to |splits|
      invariant MergeFrom(start, splits, py) == MergeFrom(row, splits[i..], py)
    {
      assert splits[i..][1..] == splits[i + 1..];
      var group :- GroupOf(splits[i]);
      var stats := Get(splits[i], "stat", EmptyObject).value;  // splits[i] is a dict once its group was read
      if group == "hitting" {
        var n :- IntStat(stats, "gamesPlayed", py);
        row := row.(games_played := Some(n));
        n :- IntStat(stats, "runs", py);
        row := row.(runs_scored := Some(n));
        n :- IntStat(stats, "homeRuns", py);
        row := row.(home_runs := Some(n));
        var x :- RateStat(stats, "avg", py);
        row := row.(batting_avg := Some(x));
        x :- RateStat(stats, "obp", py);
        row := row.(obp := Some(x));
        x :- RateStat(stats, "slg", py);
        row := row.(slg := Some(x));
        n :- IntStat(stats, "stolenBases", py);
        row := row.(stolen_bases := Some(n));
        n :- IntStat(stats, "caughtStealing", py);
        row := row.(caught_stealing := Some(n));
      } else if group == "pitching" {
        var n :- IntStat(stats, "wins", py);
        row := row.(wins := Some(n));
        n :- IntStat(stats, "losses", py);
        row := row.(losses := Some(n));
        var x :- RateStat(stats, "winPercentage", py);
        row := row.(win_percentage := Some(x));
        x :- RateStat(stats, "era", py);
        row := row.(era := Some(x));
        n :- IntStat(stats, "strikeOuts", py);
        row := row.(strikeouts := Some(n));
        n :- IntStat(stats, "baseOnBalls", py);
        row := row.(walks := Some(n));
        n :- IntStat(stats, "runs", py);
        row := row.(runs_allowed := Some(n));
      }
    }
    return Ok(row);
  }

  /** A row that is written: it has a team id, for this season and run. */
  predicate Kept(row: TeamStatRecord, season: int, updatedAt: string) {
    row.team_id != JNull && row.season == season && row.updated_at == updatedAt
  }

  /** The rows that have a team id, in order: the filter of fetch_team_stats. */
  function WithTeamId(rows: seq<TeamStatRecord>): (r: seq<TeamStatRecord>)
    ensures |r| <= |rows|
    decreases |rows|
  {
    if rows == [] then []
    else (if rows[0].team_id != JNull then [rows[0]] else []) + WithTeamId(rows[1..])
  }

  /** The filter keeps nothing exactly when no row has a team id. */
  lemma {:induction false} WithTeamIdEmpty(rows: seq<TeamStatRecord>)
    ensures WithTeamId(rows) == [] <==> forall i :: 0 <= i < |rows| ==> rows[i].team_id == JNull
    decreases |rows|
  {
    if rows != [] {
      WithTeamIdEmpty(rows[1..]);
      assert forall i :: 1 <= i < |rows| ==> rows[i] == rows[1..][i - 1];
    }
  }

  /** The loop over stats entries, with `rowOf` merging one entry: it
      succeeds exactly when every entry's row can be built, and then appends
      to `acc` exactly the merged rows that have a team id, in entry order. */
  function TeamsFrom(rowOf: Json -> Result<TeamStatRecord>, acc: seq<TeamStatRecord>,
                     teams: seq<Json>): (r: Result<seq<TeamStatRecord>>)
    ensures r.Ok? <==> forall i :: 0 <= i < |teams| ==> rowOf(teams[i]).Ok?
    ensures r.Ok? ==> r.value == acc + WithTeamId(Values(rowOf, teams))
    ensures r.Ok? ==> forall i :: |acc| <= i < |r.value| ==> r.value[i].team_id != JNull
    decreases |teams|
  {
    if teams == [] then Ok(acc)
    else
      var row :- rowOf(teams[0]);
      var acc' := if row.team_id == JNull then acc else acc + [row];
      var r := TeamsFrom(rowOf, acc', teams[1..]);
      assert r.Ok? ==> forall i :: 1 <= i < |teams| ==> teams[i] == teams[1..][i - 1];
      assert r.Ok? ==> Values(rowOf, teams) == [row] + Values(rowOf, teams[1..]);
      assert r.Ok? ==> ([row] + Values(rowOf, teams[1..]))[1..] == Values(rowOf, teams[1..]);
      assert r.Ok? && row.team_id != JNull ==>
        r.value[..|acc|] == r.value[..|acc| + 1][..|acc|] && r.value[|acc|] == row;
      r
  }

  /** When every merged row carries the season and the timestamp, so does
      every row the loop keeps. */
  lemma {:induction false} TeamsFromStamped(rowOf: Json -> Result<TeamStatRecord>, acc: seq<TeamStatRecord>,
                                            teams: seq<Json>, season: int, updatedAt: string)
    requires forall t :: rowOf(t).Ok? ==> rowOf(t).value.season == season && rowOf(t).value.updated_at == updatedAt
    requires TeamsFrom(rowOf, acc, teams).Ok?
    ensures var rows := TeamsFrom(rowOf, acc, teams).value;
      forall i :: |acc| <= i < |rows| ==> rows[i].season == season && rows[i].updated_at == updatedAt
    decreases |teams|
  {
    if teams != [] {
      var row := rowOf(teams[0]).value;
      if row.team_id == JNull {
        TeamsFromStamped(rowOf, acc, teams[1..], season, updatedAt);
      } else {
        var rows := TeamsFrom(rowOf, acc + [row], teams[1..]).value;
        TeamsFromStamped(rowOf, acc + [row], teams[1..], season, updatedAt);
        assert rows[|acc|] == rows[..|acc| + 1][|acc|];
      }
    }
  }

  /** The merged row of one stats entry, for this season and run. */
  function RowOf(season: int, updatedAt: string, py: Builtins): Json -> Result<TeamStatRecord> {
    team => TeamRowOf(team, season, updatedAt, py)
  }

  /** The rows built from a team-stats response. */
  function TeamStatsOf(data: Json, season: int, updatedAt: string, py: Builtins): Result<seq<TeamStatRecord>> {
    var v :- Get(data, "stats", EmptyArray);
    var teams :- Iter(v);
    TeamsFrom(RowOf(season, updatedAt, py), [], teams)
  }

  /** fetch_team_stats has nothing to write exactly when no merged row of the
      response's stats entries has a team id. */
  lemma NothingToWriteIffNoTeamId(data: Json, season: int, updatedAt: string, py: Builtins)
    requires TeamStatsOf(data, season, updatedAt, py).Ok?
    ensures var teams := Iter(Get(data, "stats", EmptyArray).value).value;
      && (forall i :: 0 <= i < |teams| ==> TeamRowOf(teams[i], season, updatedAt, py).Ok?)
      && (TeamStatsOf(data, season, updatedAt, py).value == [] <==>
          forall i :: 0 <= i < |teams| ==> TeamRowOf(teams[i], season, updatedAt, py).value.team_id == JNull)
  {
    var teams := Iter(Get(data, "stats", EmptyArray).value).value;
    var rowOf := RowOf(season, updatedAt, py);
    var merged := Values(rowOf, teams);
    WithTeamIdEmpty(merged);
    assert forall i :: 0 <= i < |teams| ==> merged[i] == TeamRowOf(teams[i], season, updatedAt, py).value;
  }

  /** Every row fetch_team_stats writes has a team id, the season and the run's timestamp. */
  lemma TeamStatsAreKept(data: Json, season: int, updatedAt: string, py: Builtins)
    requires TeamStatsOf(data, season, updatedAt, py).Ok?
    ensures forall row <- TeamStatsOf(data, season, updatedAt, py).value :: Kept(row, season, updatedAt)
  {
    var teams := Iter(Get(data, "stats", EmptyArray).value).value;
    var rowOf := RowOf(season, updatedAt, py);
    var rows := TeamStatsOf(data, season, updatedAt, py).value;
    TeamsFromStamped(rowOf, [], teams, season, updatedAt);
    forall row <- rows
      ensures Kept(row, season, updatedAt)
    {
      var i :| 0 <= i < |rows| && rows[i] == row;
    }
  }

  /** The loop of fetch_team_stats over stats entries. */
  method CollectTeamStats(data: Json, season: int, updatedAt: string, py: Builtins) returns (r: Result<seq<TeamStatRecord>>)
    ensures r == TeamStatsOf(data, season, updatedAt, py)
  {
    var v :- Get(data, "stats", EmptyArray);
    var teams :- Iter(v);
    ghost var rowOf := RowOf(season, updatedAt, py);
    var out: seq<TeamStatRecord> := [];
    for i := 0 to |teams|
      invariant TeamsFrom(rowOf, [], teams) == TeamsFrom(rowOf, out, teams[i..])
    {
      assert teams[i..][1..] == teams[i + 1..];
      var row :- BuildTeamRow(teams[i], season, updatedAt, py);
      if row.team_id != JNull {
        out := out + [row];
      }
    }
    return Ok(out);
  }

  function TeamStatRows(rows: seq<TeamStatRecord>): (r: seq<Row>)
    ensures |r| == |rows| && forall i :: 0 <= i < |rows| ==> r[i] == TeamStat(rows[i])
  {
    seq(|rows|, i requires 0 <= i < |rows| => TeamStat(rows[i]))
  }

  /** The season fetch_team_stats uses: the one given, else the current UTC year. */
  function SeasonOrYear(season: Option<int>, utcYear: int): int {
    if season.Some? then season.value else utcYear
  }

  /** fetch_team_stats(season): no store call at all when no row has a team id,
      otherwise the rows upserted into `team_stats` on (season, team_id). */
  method FetchTeamStats(client: Client, data: Json, season: Option<int>, utcYear: int, updatedAt: string,
                        py: Builtins) returns (r: Result<()>)
    modifies client
    ensures var rows := TeamStatsOf(data, SeasonOrYear(season, utcYear), updatedAt, py);
      && (rows.Err? ==> r == Err(rows.error) && client.log == old(client.log))
      && (rows.Ok? && rows.value == [] ==> r == Ok(()) && client.log == old(client.log))
      && (rows.Ok? && rows.value != [] ==>
            Upserted(old(client.log), client.log, client.accepts, "team_stats",
                     TeamStatRows(rows.value), ["season", "team_id"], r))
  {
    var year := if season.Some? then season.value else utcYear;
    var rows :- CollectTeamStats(data, year, updatedAt, py);
    if rows == [] {
      return Ok(());
    }
    r := Upsert(client, "team_stats", TeamStatRows(rows), ["season", "team_id"]);
  }
}
