/** fetch_player_stats of fetch_mlb_data.py: one `player_season_stats` row
    per season split that names both a player and a team. Counts and rates
    that are absent or falsy become 0. A split whose conversion raises
    ValueError or TypeError is skipped and the loop goes on; any other
    exception ends the fetch. */
module PlayerStats {
  import opened Python
  import opened Access
  import Decimal
  import opened Records
  import opened Store
  import opened UpsertHelper

  /** `int()` of the value under `key` succeeds wherever the source calls it:
      the value is absent or falsy (the source then uses None or 0), or int()
      of it returns. */
  predicate IntConverts(obj: Json, key: string, py: Builtins)
    requires obj.JObj?
  {
    key in obj.fields && Truthy(obj.fields[key]) ==> ToInt(obj.fields[key], py).Ok?
  }

  /** `float()` of the value under `key` succeeds: the value is absent or
      falsy (the source then uses 0), or float() of it returns. */
  predicate FloatConverts(stat: Json, key: string, py: Builtins)
    requires stat.JObj?
  {
    key in stat.fields && Truthy(stat.fields[key]) ==> ToFloat(stat.fields[key], py).Ok?
  }

  /** `int(obj.get(key)) if obj.get(key) else None`. */
  function IdField(obj: Json, key: string, py: Builtins): (r: Result<Option<int>>)
    ensures r.Ok? <==> obj.JObj? && IntConverts(obj, key, py)
    ensures r.Ok? ==> r.value == (if key in obj.fields && Truthy(obj.fields[key])
                                  then Some(ToInt(obj.fields[key], py).value) else None)
  {
    var v :- Get(obj, key, JNull);
    if Truthy(v) then var n :- ToInt(v, py); Ok(Some(n)) else Ok(None)
  }

  /** `str(obj.get(key)) if obj.get(key) else None`. */
  function NameField(obj: Json, key: string, py: Builtins): (r: Result<Option<string>>)
    ensures r.Ok? <==> obj.JObj?
    ensures r.Ok? ==> r.value == (if key in obj.fields && Truthy(obj.fields[key])
                                  then Some(ToStr(obj.fields[key], py)) else None)
  {
    var v :- Get(obj, key, JNull);
    Ok(if Truthy(v) then Some(ToStr(v, py)) else None)
  }

  /** `int(stat.get(key, 0)) if stat.get(key) else 0`. */
  function GuardedCount(stat: Json, key: string, py: Builtins): (r: Result<int>)
    ensures r.Ok? <==> stat.JObj? && IntConverts(stat, key, py)
    ensures r.Ok? ==> r.value == (if key in stat.fields && Truthy(stat.fields[key])
                                  then ToInt(stat.fields[key], py).value else 0)
  {
    var v :- Get(stat, key, JNull);
    if Truthy(v) then ToInt(v, py) else Ok(0)
  }

  /** `int(stat.get(key, 0) or 0)`. */
  function Count(stat: Json, key: string, py: Builtins): (r: Result<int>)
    ensures r.Ok? <==> stat.JObj? && IntConverts(stat, key, py)
    ensures r.Ok? ==> r.value == (if key in stat.fields && Truthy(stat.fields[key])
                                  then ToInt(stat.fields[key], py).value else 0)
  {
    var v :- Get(stat, key, JInt(0));
    ToInt(Or(v, JInt(0)), py)
  }

  /** `float(stat.get(key, 0) or 0)`. */
  function Rate(stat: Json, key: string, py: Builtins): (r: Result<real>)
    ensures r.Ok? <==> stat.JObj? && FloatConverts(stat, key, py)
    ensures r.Ok? ==> r.value == (if key in stat.fields && Truthy(stat.fields[key])
                                  then ToFloat(stat.fields[key], py).value else 0.0)
  {
    var v :- Get(stat, key, JInt(0));
    ToFloat(Or(v, JInt(0)), py)
  }

  /** An absent or falsy count or rate in a stat dict is 0. */
  lemma {:induction false} MissingStatIsZero(stat: Json, key: string, py: Builtins)
    requires stat.JObj?
    requires key !in stat.fields || !Truthy(stat.fields[key])
    ensures GuardedCount(stat, key, py) == Ok(0)
    ensures Count(stat, key, py) == Ok(0)
    ensures Rate(stat, key, py) == Ok(0.0)
  {
  }

  /** The dict literal inside `try`, columns in the order Python evaluates them. */
  function PlayerRecordOf(player: Json, stat: Json, team: Json, year: int, py: Builtins): Result<PlayerRecord> {
    var playerId :- IdField(player, "id", py);
    var teamId :- IdField(team, "id", py);
    var name :- NameField(player, "fullName", py);
    var gamesPlayed :- GuardedCount(stat, "gamesPlayed", py);
    var avg :- Rate(stat, "avg", py);
    var ops :- Rate(stat, "ops", py);
    var hr :- Count(stat, "homeRuns", py);
    var rbi :- Count(stat, "rbi", py);
    var era :- Rate(stat, "era", py);
    var so :- Count(stat, "strikeOuts", py);
    Ok(PlayerRecord(playerId, year, teamId, name, gamesPlayed, avg, ops, hr, rbi, era, so))
  }

  /** The record of a split converts exactly when the player, the team and
      the stat are dicts and each of the nine numeric conversions returns;
      str() of the name never raises. */
  lemma PlayerRecordOfSucceeds(player: Json, stat: Json, team: Json, year: int, py: Builtins)
    ensures PlayerRecordOf(player, stat, team, year, py).Ok? <==>
      && player.JObj? && team.JObj? && stat.JObj?
      && IntConverts(player, "id", py) && IntConverts(team, "id", py)
      && IntConverts(stat, "gamesPlayed", py) && FloatConverts(stat, "avg", py) && FloatConverts(stat, "ops", py)
      && IntConverts(stat, "homeRuns", py) && IntConverts(stat, "rbi", py) && FloatConverts(stat, "era", py)
      && IntConverts(stat, "strikeOuts", py)
  {
  }

  /** The columns of a record that converts: each id and the name are the
      converted value when truthy and None otherwise, the season is the
      current year, and each truthy count or rate is its converted value. */
  lemma PlayerRecordOfValue(player: Json, stat: Json, team: Json, year: int, py: Builtins)
    requires PlayerRecordOf(player, stat, team, year, py).Ok?
    ensures player.JObj? && team.JObj? && stat.JObj?
    ensures var row := PlayerRecordOf(player, stat, team, year, py).value;
      && row.season == year
      && row.player_id == (if "id" in player.fields && Truthy(player.fields["id"])
                           then Some(ToInt(player.fields["id"], py).value) else None)
      && row.team_id == (if "id" in team.fields && Truthy(team.fields["id"])
                         then Some(ToInt(team.fields["id"], py).value) else None)
      && row.player_name == (if "fullName" in player.fields && Truthy(player.fields["fullName"])
                             then Some(ToStr(player.fields["fullName"], py)) else None)
      && ("gamesPlayed" in stat.fields && Truthy(stat.fields["gamesPlayed"]) ==>
            row.games_played == ToInt(stat.fields["gamesPlayed"], py).value)
      && ("avg" in stat.fields && Truthy(stat.fields["avg"]) ==> row.avg == ToFloat(stat.fields["avg"], py).value)
      && ("ops" in stat.fields && Truthy(stat.fields["ops"]) ==> row.ops == ToFloat(stat.fields["ops"], py).value)
      && ("homeRuns" in stat.fields && Truthy(stat.fields["homeRuns"]) ==>
            row.hr == ToInt(stat.fields["homeRuns"], py).value)
      && ("rbi" in stat.fields && Truthy(stat.fields["rbi"]) ==> row.rbi == ToInt(stat.fields["rbi"], py).value)
      && ("era" in stat.fields && Truthy(stat.fields["era"]) ==> row.era == ToFloat(stat.fields["era"], py).value)
      && ("strikeOuts" in stat.fields && Truthy(stat.fields["strikeOuts"]) ==>
            row.so == ToInt(stat.fields["strikeOuts"], py).value)
  {
  }

  /** The exceptions the `except` clause catches. */
  predicate Caught(e: Error) {
    e == ValueError || e == TypeError
  }

  /** What one split contributes: Ok(Some(row)) appends a row, Ok(None) skips
      the split, Err raises out of the fetch. */
  function PlayerOf(split: Json, year: int, py: Builtins): (r: Result<Option<PlayerRecord>>)
    ensures r.Ok? && r.value.Some? ==>
      r.value.value.player_id.Some? && r.value.value.team_id.Some? && r.value.value.season == year
  {
    var player :- Get(split, "player", EmptyObject);
    var stat :- Get(split, "stat", EmptyObject);
    var team :- Get(split, "team", EmptyObject);
    // The handler's own player.get cannot raise: a caught error comes after
    // player.get("id") succeeded, so player is a dict.
    match PlayerRecordOf(player, stat, team, year, py)
    case Err(e) => if Caught(e) then Ok(None) else Err(e)
    case Ok(row) => Ok(if row.player_id.Some? && row.team_id.Some? then Some(row) else None)
  }

  /** A split whose record converts is kept exactly when both its player id
      and its team id are truthy: a missing, null, 0 or empty id drops it. */
  lemma KeptIffBothIds(split: Json, year: int, py: Builtins)
    requires split.JObj?
    requires PlayerRecordOf(Get(split, "player", EmptyObject).value, Get(split, "stat", EmptyObject).value,
                            Get(split, "team", EmptyObject).value, year, py).Ok?
    ensures PlayerOf(split, year, py).Ok?
    ensures PlayerOf(split, year, py).value.Some? <==>
      Truthy(Get(Get(split, "player", EmptyObject).value, "id", JNull).value) &&
      Truthy(Get(Get(split, "team", EmptyObject).value, "id", JNull).value)
  {
  }

  /** A split whose record converts and names both a player and a team is
      kept, as that record. */
  lemma ConvertedSplitIsKept(split: Json, year: int, py: Builtins)
    requires split.JObj?
    requires var rec := PlayerRecordOf(Get(split, "player", EmptyObject).value, Get(split, "stat", EmptyObject).value,
                                       Get(split, "team", EmptyObject).value, year, py);
      rec.Ok? && rec.value.player_id.Some? && rec.value.team_id.Some?
    ensures PlayerOf(split, year, py) ==
      Ok(Some(PlayerRecordOf(Get(split, "player", EmptyObject).value, Get(split, "stat", EmptyObject).value,
                             Get(split, "team", EmptyObject).value, year, py).value))
  {
  }

  /** A split with a nonzero player id, a nonzero team id and an empty stat
      dict is kept, with no name and every count and rate 0. */
  lemma MinimalSplitIsKept(p: int, t: int, year: int, py: Builtins)
    requires p != 0 && t != 0
    ensures PlayerOf(JObj(map["player" := JObj(map["id" := JInt(p)]), "team" := JObj(map["id" := JInt(t)]),
                              "stat" := EmptyObject]), year, py)
            == Ok(Some(PlayerRecord(Some(p), year, Some(t), None, 0, 0.0, 0.0, 0, 0, 0.0, 0)))
  {
    var player := JObj(map["id" := JInt(p)]);
    var team := JObj(map["id" := JInt(t)]);
    var split := JObj(map["player" := player, "team" := team, "stat" := EmptyObject]);
    PlayerRecordOfSucceeds(player, EmptyObject, team, year, py);
    PlayerRecordOfValue(player, EmptyObject, team, year, py);
    KeptRowDefaults(player, EmptyObject, team, year, py);
    ConvertedSplitIsKept(split, year, py);
  }

  /** A split whose conversion raises ValueError or TypeError contributes
      nothing, and raises nothing. */
  lemma ConversionErrorSkips(split: Json, year: int, py: Builtins)
    requires split.JObj?
    requires
      var rec := PlayerRecordOf(Get(split, "player", EmptyObject).value, Get(split, "stat", EmptyObject).value,
                                Get(split, "team", EmptyObject).value, year, py);
      rec.Err? && Caught(rec.error)
    ensures PlayerOf(split, year, py) == Ok(None)
  {
  }

  /** A player id given as text with more digits than the interpreter's limit
      makes int() raise ValueError, which the `except` clause catches: the
      split is skipped and the fetch goes on. */
  lemma LongIdTextSkips(split: Json, year: int, py: Builtins)
    requires split.JObj? && "player" in split.fields
    requires var player := split.fields["player"];
      && player.JObj? && "id" in player.fields && player.fields["id"].JStr?
      && TooManyDigits(Decimal.DigitCount(player.fields["id"].s), py)
    ensures PlayerOf(split, year, py) == Ok(None)
  {
  }

  /** An int avg too large for a float makes float() raise OverflowError,
      which the `except` clause does not catch: the split ends the fetch. */
  lemma HugeAverageAborts(split: Json, year: int, py: Builtins)
    requires split.JObj?
    requires var player := Get(split, "player", EmptyObject).value;
      var team := Get(split, "team", EmptyObject).value;
      var stat := Get(split, "stat", EmptyObject).value;
      && IdField(player, "id", py).Ok? && IdField(team, "id", py).Ok? && NameField(player, "fullName", py).Ok?
      && GuardedCount(stat, "gamesPlayed", py).Ok?
      && stat.JObj? && "avg" in stat.fields && stat.fields["avg"].JInt? && stat.fields["avg"].n >= FloatOverflow
    ensures PlayerOf(split, year, py) == Err(OverflowError)
  {
  }

  /** Absent or falsy counts and rates of a kept row are 0. */
  lemma KeptRowDefaults(player: Json, stat: Json, team: Json, year: int, py: Builtins)
    requires stat.JObj?
    requires PlayerRecordOf(player, stat, team, year, py).Ok?
    ensures var row := PlayerRecordOf(player, stat, team, year, py).value;
      && ("gamesPlayed" !in stat.fields || !Truthy(stat.fields["gamesPlayed"]) ==> row.games_played == 0)
      && ("avg" !in stat.fields || !Truthy(stat.fields["avg"]) ==> row.avg == 0.0)
      && ("ops" !in stat.fields || !Truthy(stat.fields["ops"]) ==> row.ops == 0.0)
      && ("homeRuns" !in stat.fields || !Truthy(stat.fields["homeRuns"]) ==> row.hr == 0)
      && ("rbi" !in stat.fields || !Truthy(stat.fields["rbi"]) ==> row.rbi == 0)
      && ("era" !in stat.fields || !Truthy(stat.fields["era"]) ==> row.era == 0.0)
      && ("strikeOuts" !in stat.fields || !Truthy(stat.fields["strikeOuts"]) ==> row.so == 0)
  {
    if "gamesPlayed" !in stat.fields || !Truthy(stat.fields["gamesPlayed"]) { MissingStatIsZero(stat, "gamesPlayed", py); }
    if "avg" !in stat.fields || !Truthy(stat.fields["avg"]) { MissingStatIsZero(stat, "avg", py); }
    if "ops" !in stat.fields || !Truthy(stat.fields["ops"]) { MissingStatIsZero(stat, "ops", py); }
    if "homeRuns" !in stat.fields || !Truthy(stat.fields["homeRuns"]) { MissingStatIsZero(stat, "homeRuns", py); }
    if "rbi" !in stat.fields || !Truthy(stat.fields["rbi"]) { MissingStatIsZero(stat, "rbi", py); }
    if "era" !in stat.fields || !Truthy(stat.fields["era"]) { MissingStatIsZero(stat, "era", py); }
    if "strikeOuts" !in stat.fields || !Truthy(stat.fields["strikeOuts"]) { MissingStatIsZero(stat, "strikeOuts", py); }
  }

  /** The row is kept: it names a player and a team, for this season. */
  ghost predicate Complete(row: PlayerRecord, year: int) {
    row.player_id.Some? && row.team_id.Some? && row.season == year
  }

  /** The rows of the outcomes that keep one, in order. */
  function Somes<T>(outcomes: seq<Option<T>>): (r: seq<T>)
    ensures |r| <= |outcomes|
    decreases |outcomes|
  {
    if outcomes == [] then []
    else (if outcomes[0].Some? then [outcomes[0].value] else []) + Somes(outcomes[1..])
  }

  lemma {:induction false} SomesAppend<T>(a: seq<Option<T>>, b: seq<Option<T>>)
    ensures Somes(a + b) == Somes(a) + Somes(b)
    decreases |a|
  {
    if a != [] {
      assert (a + b)[0] == a[0];
      assert (a + b)[1..] == a[1..] + b;
      SomesAppend(a[1..], b);
    } else {
      assert a + b == b;
    }
  }

  /** Every row of Somes(outcomes) is the row of one of the outcomes. */
  lemma {:induction false} SomesMembers<T>(outcomes: seq<Option<T>>)
    ensures forall x <- Somes(outcomes) :: Some(x) in outcomes
    decreases |outcomes|
  {
    if outcomes != [] {
      SomesMembers(outcomes[1..]);
      forall x <- Somes(outcomes) ensures Some(x) in outcomes {
        if x !in Somes(outcomes[1..]) {
          assert outcomes[0] == Some(x);
        } else {
          assert Some(x) in outcomes[1..];
        }
      }
    }
  }

  /** No split of `splits` raises out of the fetch, and `rows` are the rows
      the splits keep, in split order. */
  ghost predicate KeptRows<T>(keep: Json -> Result<Option<T>>, splits: seq<Json>, rows: seq<T>) {
    && (forall i :: 0 <= i < |splits| ==> keep(splits[i]).Ok?)
    && rows == Somes(Values(keep, splits))
  }

  /** The inner loop over the splits of one stats entry, with `keep` saying
      what one split contributes: it succeeds exactly when no split raises
      out of the fetch, and then appends exactly the kept rows, in split
      order, so a split is dropped only when it is skipped. */
  function SplitsFrom<T>(keep: Json -> Result<Option<T>>, acc: seq<T>, splits: seq<Json>): (r: Result<seq<T>>)
    ensures r.Ok? <==> forall i :: 0 <= i < |splits| ==> keep(splits[i]).Ok?
    ensures r.Ok? ==> r.value == acc + Somes(Values(keep, splits))
    decreases |splits|
  {
    if splits == [] then Ok(acc)
    else
      var kept :- keep(splits[0]);
      var acc' := if kept.Some? then acc + [kept.value] else acc;
      var r := SplitsFrom(keep, acc', splits[1..]);
      assert forall i :: 1 <= i < |splits| ==> splits[i] == splits[1..][i - 1];
      assert r.Ok? ==> Values(keep, splits) == [kept] + Values(keep, splits[1..]);
      assert r.Ok? ==> ([kept] + Values(keep, splits[1..]))[1..] == Values(keep, splits[1..]);
      r
  }

  /** The outer loop over stats entries. */
  function EntriesFrom<T>(keep: Json -> Result<Option<T>>, acc: seq<T>, entries: seq<Json>): (r: Result<seq<T>>)
    ensures r.Ok? ==> |r.value| >= |acc| && r.value[..|acc|] == acc
    decreases |entries|
  {
    if entries == [] then Ok(acc)
    else
      var v :- Get(entries[0], "splits", EmptyArray);
      var splits :- Iter(v);
      var acc' :- SplitsFrom(keep, acc, splits);
      var r := EntriesFrom(keep, acc', entries[1..]);
      assert r.Ok? ==> r.value[..|acc|] == r.value[..|acc'|][..|acc|];
      r
  }

  /** What one split contributes to a fetch in `year`. */
  function KeepOf(year: int, py: Builtins): Json -> Result<Option<PlayerRecord>> {
    split => PlayerOf(split, year, py)
  }

  /** The rows built from a season-stats response. */
  function PlayerStatsOf(data: Json, year: int, py: Builtins): Result<seq<PlayerRecord>> {
    var v :- Get(data, "stats", EmptyArray);
    var entries :- Iter(v);
    EntriesFrom(KeepOf(year, py), [], entries)
  }

  /** Every split of a season-stats response, across all stats entries, in order. */
  function AllSplits(data: Json): Result<seq<Json>> {
    var v :- Get(data, "stats", EmptyArray);
    var entries :- Iter(v);
    ItemsFrom("splits", [], entries)
  }

  lemma {:induction false} EntriesFromKeeps<T>(keep: Json -> Result<Option<T>>, acc: seq<T>, seen: seq<Json>,
                                              entries: seq<Json>)
    requires KeptRows(keep, seen, acc)
    ensures EntriesFrom(keep, acc, entries).Ok? ==>
      ItemsFrom("splits", seen, entries).Ok? &&
      KeptRows(keep, ItemsFrom("splits", seen, entries).value, EntriesFrom(keep, acc, entries).value)
    ensures (ItemsFrom("splits", seen, entries).Ok? &&
             forall i :: 0 <= i < |ItemsFrom("splits", seen, entries).value| ==>
               keep(ItemsFrom("splits", seen, entries).value[i]).Ok?)
            ==> EntriesFrom(keep, acc, entries).Ok?
    decreases |entries|
  {
    if entries != [] {
      var fv := Get(entries[0], "splits", EmptyArray);
      if fv.Ok? && Iter(fv.value).Ok? {
        var splits := Iter(fv.value).value;
        var both := seen + splits;
        var step := SplitsFrom(keep, acc, splits);
        if step.Ok? {
          assert forall i :: 0 <= i < |both| ==> keep(both[i]).Ok? by {
            forall i | 0 <= i < |both| ensures keep(both[i]).Ok? {
              if i >= |seen| { assert both[i] == splits[i - |seen|]; }
            }
          }
          assert Values(keep, both) == Values(keep, seen) + Values(keep, splits);
          SomesAppend(Values(keep, seen), Values(keep, splits));
          EntriesFromKeeps(keep, step.value, both, entries[1..]);
        } else if ItemsFrom("splits", seen, entries).Ok? {
          var all := ItemsFrom("splits", seen, entries).value;
          ItemsFromExtends("splits", both, entries[1..]);
          var k :| 0 <= k < |splits| && !keep(splits[k]).Ok?;
          assert all[|seen| + k] == both[|seen| + k] == splits[k];
        }
      }
    }
  }

  /** The rows of a season-stats response are exactly the kept rows of all its
      splits, across all stats entries, in response order; the rows exist
      exactly when the response lists its splits and no split raises out of
      the fetch. */
  lemma PlayerStatsAreKeptSplits(data: Json, year: int, py: Builtins)
    ensures PlayerStatsOf(data, year, py).Ok? ==>
      AllSplits(data).Ok? && KeptRows(KeepOf(year, py), AllSplits(data).value, PlayerStatsOf(data, year, py).value)
    ensures (AllSplits(data).Ok? &&
             forall i :: 0 <= i < |AllSplits(data).value| ==> PlayerOf(AllSplits(data).value[i], year, py).Ok?)
            ==> PlayerStatsOf(data, year, py).Ok?
  {
    var v := Get(data, "stats", EmptyArray);
    if v.Ok? && Iter(v.value).Ok? {
      var keep := KeepOf(year, py);
      assert KeptRows(keep, [], []);
      EntriesFromKeeps(keep, [], [], Iter(v.value).value);
    }
  }

  /** Every row fetch_player_stats writes names a player and a team, for this season. */
  lemma PlayerStatsAreComplete(data: Json, year: int, py: Builtins)
    requires PlayerStatsOf(data, year, py).Ok?
    ensures forall row <- PlayerStatsOf(data, year, py).value :: Complete(row, year)
  {
    PlayerStatsAreKeptSplits(data, year, py);
    var all := AllSplits(data).value;
    var keep := KeepOf(year, py);
    SomesMembers(Values(keep, all));
    forall row <- PlayerStatsOf(data, year, py).value
      ensures Complete(row, year)
    {
      var j :| 0 <= j < |all| && Values(keep, all)[j] == Some(row);
      assert PlayerOf(all[j], year, py) == Ok(Some(row));
    }
  }

  /** A split that is skipped leaves the rows as they were; the loop goes on
      with the next split. */
  lemma {:induction false} SkippedSplitAddsNothing<T>(keep: Json -> Result<Option<T>>, acc: seq<T>, splits: seq<Json>, k: nat)
    requires k < |splits|
    requires keep(splits[k]) == Ok(None)
    ensures SplitsFrom(keep, acc, splits) == SplitsFrom(keep, acc, splits[..k] + splits[k + 1..])
    decreases k
  {
    if k == 0 {
      assert splits[..0] + splits[1..] == splits[1..];
    } else {
      var rest := splits[..k] + splits[k + 1..];
      assert rest[0] == splits[0];
      assert rest[1..] == splits[1..][..k - 1] + splits[1..][k..];
      match keep(splits[0])
      case Err(_) =>
      case Ok(kept) =>
        var acc' := if kept.Some? then acc + [kept.value] else acc;
        SkippedSplitAddsNothing(keep, acc', splits[1..], k - 1);
    }
  }

  /** The two loops of fetch_player_stats. */
  method CollectPlayerStats(data: Json, year: int, py: Builtins) returns (r: Result<seq<PlayerRecord>>)
    ensures r == PlayerStatsOf(data, year, py)
  {
    var v :- Get(data, "stats", EmptyArray);
    var entries :- Iter(v);
    ghost var keep := KeepOf(year, py);
    var out: seq<PlayerRecord> := [];
    for i := 0 to |entries|
      invariant EntriesFrom(keep, [], entries) == EntriesFrom(keep, out, entries[i..])
    {
      var w :- Get(entries[i], "splits", EmptyArray);
      var splits :- Iter(w);
      assert entries[i..][1..] == entries[i + 1..];
      ghost var start := out;
      for j := 0 to |splits|
        invariant SplitsFrom(keep, start, splits) == SplitsFrom(keep, out, splits[j..])
      {
        assert splits[j..][1..] == splits[j + 1..];
        var kept :- PlayerOf(splits[j], year, py);
        if kept.Some? {
          out := out + [kept.value];
        }
      }
    }
    return Ok(out);
  }

  function PlayerRows(rows: seq<PlayerRecord>): (r: seq<Row>)
    ensures |r| == |rows| && forall i :: 0 <= i < |rows| ==> r[i] == Player(rows[i])
  {
    seq(|rows|, i requires 0 <= i < |rows| => Player(rows[i]))
  }

  /** fetch_player_stats: the rows upserted into `player_season_stats` on (player_id, season). */
  method FetchPlayerStats(client: Client, data: Json, year: int, py: Builtins) returns (r: Result<()>)
    modifies client
    ensures PlayerStatsOf(data, year, py).Err? ==>
      r == Err(PlayerStatsOf(data, year, py).error) && client.log == old(client.log)
    ensures PlayerStatsOf(data, year, py).Ok? ==>
      Upserted(old(client.log), client.log, client.accepts, "player_season_stats",
               PlayerRows(PlayerStatsOf(data, year, py).value), ["player_id", "season"], r)
  {
    var rows :- CollectPlayerStats(data, year, py);
    r := Upsert(client, "player_season_stats", PlayerRows(rows), ["player_id", "season"]);
  }
}
