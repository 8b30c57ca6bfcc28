/** The `upsert(table, rows, conflict_cols)` helper of fetch_mlb_data.py:
    nothing for an empty batch, otherwise one batch call whose conflict spec
    names the given columns. */
module UpsertHelper {
  import opened Python
  import opened Records
  import opened Store

  /** The `on_conflict` string: the only column when there is one, the columns
      comma-joined in the given order when there are more; indexing the empty
      list raises. */
  function ConflictSpec(cols: seq<string>): (r: Result<string>)
    ensures r.Ok? <==> |cols| > 0
    ensures r.Ok? ==> r.value == Join(cols)
    ensures r.Err? ==> r.error == IndexError
  {
    if |cols| > 1 then Ok(Join(cols))
    else if |cols| == 1 then Ok(cols[0])
    else Err(IndexError)
  }

  /** The conflict spec of comma-free column names gives back those names. */
  lemma ConflictSpecNamesColumns(cols: seq<string>)
    requires |cols| > 0
    requires forall i :: 0 <= i < |cols| ==> ',' !in cols[i]
    ensures ConflictSpec(cols).Ok? && Split(ConflictSpec(cols).value) == cols
  {
    SplitJoin(cols);
  }

  /** The store call `upsert` makes: none for an empty batch. */
  function Request(table: string, rows: seq<Row>, cols: seq<string>): (r: Result<Option<Call>>)
    ensures rows == [] ==> r == Ok(None)
    ensures rows != [] && |cols| > 0 ==> r == Ok(Some(Batch(table, rows, Join(cols))))
    ensures rows != [] && |cols| == 0 ==> r == Err(IndexError)
  {
    if rows == [] then Ok(None)
    else
      var spec :- ConflictSpec(cols);
      Ok(Some(Batch(table, rows, spec)))
  }

  /** `after` and `r` are the log and the outcome of `upsert(table, rows, cols)`
      run against the log `before` and a store that answers with `accepts`. */
  ghost predicate Upserted(before: seq<Call>, after: seq<Call>, accepts: Call -> bool,
                           table: string, rows: seq<Row>, cols: seq<string>, r: Result<()>)
  {
    match Request(table, rows, cols)
    case Err(e) => after == before && r == Err(e)
    case Ok(None) => after == before && r == Ok(())
    case Ok(Some(call)) =>
      after == before + [call] && r == (if accepts(call) then Ok(()) else Err(StoreError))
  }

  /** An empty batch is no call at all and no error. */
  lemma EmptyBatchIsNoOp(before: seq<Call>, after: seq<Call>, accepts: Call -> bool,
                         table: string, cols: seq<string>, r: Result<()>)
    requires Upserted(before, after, accepts, table, [], cols, r)
    ensures after == before && r == Ok(())
  {
  }

  /** `upsert(table, rows, conflict_cols)`; a refusal from the store is raised again. */
  method Upsert(client: Client, table: string, rows: seq<Row>, cols: seq<string>) returns (r: Result<()>)
    modifies client
    ensures Upserted(old(client.log), client.log, client.accepts, table, rows, cols, r)
  {
    if rows == [] {
      return Ok(());
    }
    var spec :- ConflictSpec(cols);
    r := client.Execute(Batch(table, rows, spec));
  }
}
