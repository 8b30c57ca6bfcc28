/** The two ways the scrapers reach into nested JSON.

    Safe access, `j.get(k1, {}).get(k2, {}) ... .get(kn)`: a missing key on
    the way gives an empty dict, and so None at the end; only a value that is
    present and not a dict makes the next `.get` raise.

    Strict access, `j[k1][k2]...[kn]`: every key must be present in a dict.

    Nested iteration, `for b in blocks: for x in b.get(key, []):`: the items
    of every block, block after block. */
module Access {
  import opened Python

  /** `j.get(keys[0], {}).get(keys[1], {}) ... .get(keys[n-1])`. */
  function GetPath(j: Json, keys: seq<string>): Result<Json>
    requires |keys| > 0
    decreases |keys|
  {
    if |keys| == 1 then Get(j, keys[0], JNull)
    else
      var next :- Get(j, keys[0], EmptyObject);
      GetPath(next, keys[1..])
  }

  /** `j[keys[0]][keys[1]]...[keys[n-1]]`. */
  function IndexPath(j: Json, keys: seq<string>): Result<Json>
    requires |keys| > 0
    decreases |keys|
  {
    var next :- Index(j, keys[0]);
    if |keys| == 1 then Ok(next) else IndexPath(next, keys[1..])
  }

  /** The value at the end of the path, or null when a key along it is missing. */
  function Dig(j: Json, keys: seq<string>): Json
    decreases |keys|
  {
    if keys == [] then j
    else if j.JObj? && keys[0] in j.fields then Dig(j.fields[keys[0]], keys[1..])
    else JNull
  }

  /** Every value the path passes through, as far as its keys are present, is a dict. */
  predicate ObjectsAlong(j: Json, keys: seq<string>)
    requires |keys| > 0
    decreases |keys|
  {
    && j.JObj?
    && (|keys| > 1 && keys[0] in j.fields ==> ObjectsAlong(j.fields[keys[0]], keys[1..]))
  }

  /** Every key of the path is present, in a dict. */
  predicate HasPath(j: Json, keys: seq<string>)
    requires |keys| > 0
    decreases |keys|
  {
    && j.JObj?
    && keys[0] in j.fields
    && (|keys| > 1 ==> HasPath(j.fields[keys[0]], keys[1..]))
  }

  /** Safe access never fails on a missing key: it fails exactly when a value on
      the path is present and not a dict, and otherwise yields the value at the
      end of the path, or null. */
  lemma {:induction false} GetPathMeans(j: Json, keys: seq<string>)
    requires |keys| > 0
    ensures GetPath(j, keys).Ok? <==> ObjectsAlong(j, keys)
    ensures GetPath(j, keys).Ok? ==> GetPath(j, keys).value == Dig(j, keys)
    ensures GetPath(j, keys).Err? ==> GetPath(j, keys).error == AttributeError
    decreases |keys|
  {
    if |keys| > 1 && j.JObj? {
      if keys[0] in j.fields {
        GetPathMeans(j.fields[keys[0]], keys[1..]);
      } else {
        GetPathMeans(EmptyObject, keys[1..]);
        assert Dig(EmptyObject, keys[1..]) == JNull;
      }
    }
  }

  /** Strict access succeeds exactly when the whole path is present, and then
      yields the value at its end. */
  lemma {:induction false} IndexPathMeans(j: Json, keys: seq<string>)
    requires |keys| > 0
    ensures IndexPath(j, keys).Ok? <==> HasPath(j, keys)
    ensures IndexPath(j, keys).Ok? ==> IndexPath(j, keys).value == Dig(j, keys)
    decreases |keys|
  {
    if |keys| > 1 && j.JObj? && keys[0] in j.fields {
      IndexPathMeans(j.fields[keys[0]], keys[1..]);
    }
  }

  /** The items `for b in blocks: for x in b.get(key, []):` visits, after `acc`. */
  function ItemsFrom(key: string, acc: seq<Json>, blocks: seq<Json>): Result<seq<Json>>
    decreases |blocks|
  {
    if blocks == [] then Ok(acc)
    else
      var v :- Get(blocks[0], key, EmptyArray);
      var items :- Iter(v);
      ItemsFrom(key, acc + items, blocks[1..])
  }

  /** The items already visited stay in front. */
  lemma {:induction false} ItemsFromExtends(key: string, acc: seq<Json>, blocks: seq<Json>)
    ensures ItemsFrom(key, acc, blocks).Ok? ==>
      |ItemsFrom(key, acc, blocks).value| >= |acc| && ItemsFrom(key, acc, blocks).value[..|acc|] == acc
    decreases |blocks|
  {
    if blocks != [] {
      var fv := Get(blocks[0], key, EmptyArray);
      if fv.Ok? && Iter(fv.value).Ok? {
        var items := Iter(fv.value).value;
        ItemsFromExtends(key, acc + items, blocks[1..]);
        var r := ItemsFrom(key, acc, blocks);
        if r.Ok? {
          assert r.value[..|acc|] == r.value[..|acc + items|][..|acc|];
        }
      }
    }
  }

  /** The value of `f` on each item, when it succeeds on every one. */
  function Values<T>(f: Json -> Result<T>, items: seq<Json>): (r: seq<T>)
    requires forall i :: 0 <= i < |items| ==> f(items[i]).Ok?
    ensures |r| == |items|
  {
    seq(|items|, i requires 0 <= i < |items| => f(items[i]).value)
  }
}
