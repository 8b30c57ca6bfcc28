/** The parts of Python's runtime the scrapers lean on: decoded JSON values,
    truthiness, dict and list access, iteration and the int/float/str
    coercions, each with the exception it raises when it does not apply. */
module Python {
  import Decimal

  /** The exception classes the modelled code can raise. StoreError stands for
      whatever the data store client raises when it refuses a write. */
  datatype Error =
    | TypeError
    | AttributeError
    | KeyError
    | IndexError
    | ValueError
    | OverflowError
    | StoreError

  datatype Option<+T> = None | Some(value: T)

  /** A Python computation: a value, or the exception it raised. */
  datatype Result<+T> = Ok(value: T) | Err(error: Error)
  {
    predicate IsFailure() {
      Err?
    }

    function PropagateFailure<U>(): Result<U>
      requires Err?
    {
      Err(error)
    }

    function Extract(): T
      requires Ok?
    {
      value
    }
  }

  /** A document as `json` decodes it: JSON integers become int, other numbers float. */
  datatype Json =
    | JNull
    | JBool(flag: bool)
    | JInt(n: int)
    | JFloat(x: real)
    | JStr(s: string)
    | JArr(items: seq<Json>)
    | JObj(fields: map<string, Json>)

  const EmptyObject: Json := JObj(map[])
  const EmptyArray: Json := JArr([])

  /** The values sys.set_int_max_str_digits accepts: 0 for no limit, else at least 640. */
  type DigitLimit = n: nat | n == 0 || n >= 640

  /** What the interpreter supplies: float(str) parsing and repr() of floats,
      lists and dicts, which the model does not reproduce, and the limit on the
      number of digits int(str) and str(int) convert (4300 by default since
      CPython 3.11; 0 means no limit, as in earlier versions). */
  datatype Builtins = Builtins(parseFloat: string -> Option<real>, repr: Json -> string, maxStrDigits: DigitLimit)

  /** A decimal conversion of `digits` digits is refused by the interpreter's limit. */
  predicate TooManyDigits(digits: nat, py: Builtins) {
    py.maxStrDigits > 0 && digits > py.maxStrDigits
  }

  /** The least magnitude of an int that float() rounds beyond the largest
      double, 2^1024 - 2^970: from there on float() raises OverflowError. */
  const FloatOverflow: int := Pow2(970) * (Pow2(54) - 1)

  function Pow2(k: nat): (r: nat)
    ensures r > k
  {
    if k == 0 then 1 else 2 * Pow2(k - 1)
  }

  /** bool(j). */
  predicate Truthy(j: Json) {
    match j
    case JNull => false
    case JBool(b) => b
    case JInt(n) => n != 0
    case JFloat(x) => x != 0.0
    case JStr(s) => s != ""
    case JArr(items) => items != []
    case JObj(fields) => fields != map[]
  }

  /** `x or y`. */
  function Or(x: Json, y: Json): Json {
    if Truthy(x) then x else y
  }

  /** `j.get(key, default)`: the default only when the key is absent; only dicts have get. */
  function Get(j: Json, key: string, default: Json): Result<Json> {
    match j
    case JObj(fields) => Ok(if key in fields then fields[key] else default)
    case _ => Err(AttributeError)
  }

  /** `j[key]` for a string key. */
  function Index(j: Json, key: string): Result<Json> {
    match j
    case JObj(fields) => if key in fields then Ok(fields[key]) else Err(KeyError)
    case _ => Err(TypeError)
  }

  /** `j[0]`; JSON objects have string keys only, so 0 is never one of them. */
  function Index0(j: Json): Result<Json> {
    match j
    case JArr(items) => if |items| > 0 then Ok(items[0]) else Err(IndexError)
    case JStr(s) => if |s| > 0 then Ok(JStr([s[0]])) else Err(IndexError)
    case JObj(_) => Err(KeyError)
    case _ => Err(TypeError)
  }

  /** The elements `for x in j` visits. A dict yields its keys; the model keeps
      how many there are but not their text, which no caller here can observe:
      each of them then uses the element as a dict, and a str raises. */
  function Iter(j: Json): Result<seq<Json>> {
    match j
    case JArr(items) => Ok(items)
    case JStr(s) => Ok(seq(|s|, i requires 0 <= i < |s| => JStr([s[i]])))
    case JObj(fields) => Ok(seq(|fields|, _ => JStr("")))
    case _ => Err(TypeError)
  }

  /** int(x) of a float: truncation toward zero. */
  function Trunc(x: real): int {
    if x >= 0.0 then x.Floor else -((-x).Floor)
  }

  /** int(j); a text with more digits than the interpreter's limit is a ValueError. */
  function ToInt(j: Json, py: Builtins): Result<int> {
    match j
    case JBool(b) => Ok(if b then 1 else 0)
    case JInt(n) => Ok(n)
    case JFloat(x) => Ok(Trunc(x))
    case JStr(s) =>
      if !Decimal.IsIntText(s) || TooManyDigits(Decimal.DigitCount(s), py) then Err(ValueError)
      else Ok(Decimal.Value(s))
    case _ => Err(TypeError)
  }

  /** float(j). */
  function ToFloat(j: Json, py: Builtins): Result<real> {
    match j
    case JBool(b) => Ok(if b then 1.0 else 0.0)
    case JInt(n) => if n >= FloatOverflow || -n >= FloatOverflow then Err(OverflowError) else Ok(n as real)
    case JFloat(x) => Ok(x)
    case JStr(s) =>
      (match py.parseFloat(s)
       case Some(x) => Ok(x)
       case None => Err(ValueError))
    case _ => Err(TypeError)
  }

  /** No interpreter refuses int() of a text of up to 640 digits. */
  lemma ShortTextConverts(s: string, py: Builtins)
    requires Decimal.IsIntText(s) && Decimal.DigitCount(s) <= 640
    ensures ToInt(JStr(s), py) == Ok(Decimal.Value(s))
  {
  }

  /** str(j). An int needs no digit check: json.loads applies the same limit to
      number literals, so no int read from a document, nor any int computed
      from one here, has more digits than the limit allows. */
  function ToStr(j: Json, py: Builtins): string {
    match j
    case JNull => "None"
    case JBool(b) => if b then "True" else "False"
    case JInt(n) => Decimal.Show(n)
    case JStr(s) => s
    case _ => py.repr(j)
  }

  /** str.lower(), on ASCII letters. */
  function Lower(s: string): string {
    seq(|s|, i requires 0 <= i < |s| => if 'A' <= s[i] <= 'Z' then (s[i] as int + 32) as char else s[i])
  }

  /** s.replace(from, to) for one-character strings `from` and `to`. */
  function Replace(s: string, from: char, to: char): (r: string)
    ensures |r| == |s|
    ensures forall i :: 0 <= i < |s| ==> r[i] == (if s[i] == from then to else s[i])
    ensures from != to ==> from !in r
    decreases |s|
  {
    if s == [] then []
    else [if s[0] == from then to else s[0]] + Replace(s[1..], from, to)
  }
}
