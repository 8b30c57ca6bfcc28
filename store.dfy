/** The hosted data store as the scripts see it: a client whose
    `table(t).upsert(payload, on_conflict=...).execute()` either answers or
    raises. The model records each such call in a ghost log; whether the store
    accepts a call is decided by the `accepts` oracle the client is built
    with. What the store then does with the rows is the store's business and
    is not modelled. */
module Store {
  import opened Python
  import opened Records

  /** One `table(...).upsert(...).execute()` call. */
  datatype Call =
    /** A list of rows with the conflict columns as one comma-joined string. */
    | Batch(table: string, rows: seq<Row>, onConflict: string)
    /** A single row with the conflict columns as a list. */
    | Single(table: string, row: Row, onConflictColumns: seq<string>)

  /** `",".join(cols)`. */
  function Join(cols: seq<string>): string
    requires |cols| > 0
    decreases |cols|
  {
    if |cols| == 1 then cols[0] else cols[0] + "," + Join(cols[1..])
  }

  /** `s.split(",")`: how a comma-joined conflict spec names its columns. */
  function Split(s: string): (parts: seq<string>)
    ensures |parts| > 0
    decreases |s|
  {
    if s == [] then [""]
    else
      var rest := Split(s[1..]);
      if s[0] == ',' then [""] + rest else [[s[0]] + rest[0]] + rest[1..]
  }

  lemma {:induction false} SplitPlain(a: string)
    requires ',' !in a
    ensures Split(a) == [a]
    decreases |a|
  {
    if a != [] {
      SplitPlain(a[1..]);
      assert [a[0]] + a[1..] == a;
    }
  }

  lemma {:induction false} SplitAfterPart(a: string, b: string)
    requires ',' !in a
    ensures Split(a + "," + b) == [a] + Split(b)
    decreases |a|
  {
    var s := a + "," + b;
    if a == [] {
      assert s[1..] == b;
    } else {
      assert s[1..] == a[1..] + "," + b;
      SplitAfterPart(a[1..], b);
      assert [a[0]] + a[1..] == a;
    }
  }

  /** A comma-joined list of comma-free column names splits back into exactly
      those names, in order: the spec determines the conflict columns. */
  lemma {:induction false} SplitJoin(cols: seq<string>)
    requires |cols| > 0
    requires forall i :: 0 <= i < |cols| ==> ',' !in cols[i]
    ensures Split(Join(cols)) == cols
    decreases |cols|
  {
    if |cols| == 1 {
      SplitPlain(cols[0]);
    } else {
      SplitAfterPart(cols[0], Join(cols[1..]));
      SplitJoin(cols[1..]);
      assert [cols[0]] + cols[1..] == cols;
    }
  }

  /** The store client shared by every call of a run. */
  class Client {
    /** Every call made so far, oldest first. */
    ghost var log: seq<Call>
    /** True when the store answers a call rather than raising. */
    const accepts: Call -> bool

    constructor (accepts: Call -> bool)
      ensures log == [] && this.accepts == accepts
    {
      log := [];
      this.accepts := accepts;
    }

    /** The store's answer to `call`. */
    function Answer(call: Call): Result<()> {
      if accepts(call) then Ok(()) else Err(StoreError)
    }

    /** `table(call.table).upsert(...).execute()`: the call is made, and then
        answered or refused. */
    method Execute(call: Call) returns (r: Result<()>)
      modifies this
      ensures log == old(log) + [call]
      ensures r == Answer(call)
    {
      log := log + [call];
      r := if accepts(call) then Ok(()) else Err(StoreError);
    }
  }
}
