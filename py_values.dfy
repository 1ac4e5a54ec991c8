/** The Python values a request payload can hold, and the two pieces of Python
    semantics the handler relies on: truthiness (`if not payload.get(field)`) and
    conversion to text (`str(payload.get(field))`). */
module PyValues {
  import opened Results

  /** A value produced by `json.loads` or by the form decoder. `Null` is Python's `None`
      (JSON `null`, or the default of `dict.get`). */
  datatype Value =
    | Null
    | Bool(b: bool)
    | Int(i: int)
    | Float(x: real)  // finite only; NaN and infinities are not represented
    | Str(s: string)
    | List(items: seq<Value>)
    | Dict(entries: map<string, Value>)

  /** Python truthiness: `None`, `False`, zero and empty containers are false. */
  predicate Truthy(v: Value) {
    match v
    case Null => false
    case Bool(b) => b
    case Int(i) => i != 0
    case Float(x) => x != 0.0
    case Str(s) => |s| > 0
    case List(items) => |items| > 0
    case Dict(entries) => |entries| > 0
  }

  /** `payload.get(key)`: the stored value, or `None` when the key is absent. */
  function Get(payload: map<string, Value>, key: string): Value {
    if key in payload then payload[key] else Null
  }

  predicate IsDigit(c: char) {
    '0' <= c <= '9'
  }

  function DigitChar(d: nat): (c: char)
    requires d < 10
    ensures IsDigit(c)
  {
    (('0' as int) + d) as char
  }

  /** The decimal numeral of a natural number, most significant digit first, without
      leading zeros. */
  function Digits(n: nat): (s: string)
    ensures |s| > 0
    ensures forall i :: 0 <= i < |s| ==> IsDigit(s[i])
    ensures |s| > 1 ==> s[0] != '0'
    decreases n
  {
    if n < 10 then [DigitChar(n)] else Digits(n / 10) + [DigitChar(n % 10)]
  }

  /** Reads a numeral back: the independent reference for `Digits`. */
  function DigitsValue(s: string): nat
    requires forall i :: 0 <= i < |s| ==> IsDigit(s[i])
  {
    if s == [] then 0
    else
      assert IsDigit(s[|s| - 1]);
      DigitsValue(s[..|s| - 1]) * 10 + (s[|s| - 1] as int - '0' as int)
  }

  /** Reads a signed numeral back: the independent reference for `IntToStr`. */
  function IntValue(s: string): int
    requires |s| > 0
    requires s[0] == '-' ==> forall i :: 1 <= i < |s| ==> IsDigit(s[i])
    requires s[0] != '-' ==> forall i :: 0 <= i < |s| ==> IsDigit(s[i])
  {
    if s[0] == '-' then -(DigitsValue(s[1..]) as int) else DigitsValue(s)
  }

  /** `str(i)` for a Python `int`: a minus sign for negatives, then the digits. */
  function IntToStr(i: int): string {
    if i < 0 then "-" + Digits(-i) else Digits(i)
  }

  /** Python's `str(v)`. `None`, booleans, integers and strings are rendered here as
      Python renders them; floats, lists and dicts go through Python's `repr`, which is
      the `repr` argument. */
  function PyStr(v: Value, repr: Value -> string): string {
    match v
    case Null => "None"
    case Bool(b) => if b then "True" else "False"
    case Int(i) => IntToStr(i)
    case Str(s) => s
    case _ => repr(v)
  }

  /** Reading back the numeral `Digits` writes gives the number again. */
  lemma {:induction false} DigitsRoundTrip(n: nat)
    ensures DigitsValue(Digits(n)) == n
  {
    if n >= 10 {
      var s := Digits(n);
      assert s[..|s| - 1] == Digits(n / 10);
      DigitsRoundTrip(n / 10);
    }
  }

  /** Reading back the text `str` gives for an integer, sign included, gives the integer. */
  lemma {:induction false} IntToStrRoundTrip(i: int)
    ensures |IntToStr(i)| > 0
    ensures IntToStr(i)[0] == '-' ==> forall k :: 1 <= k < |IntToStr(i)| ==> IsDigit(IntToStr(i)[k])
    ensures IntToStr(i)[0] != '-' ==> forall k :: 0 <= k < |IntToStr(i)| ==> IsDigit(IntToStr(i)[k])
    ensures IntValue(IntToStr(i)) == i
  {
    if i < 0 {
      var s := IntToStr(i);
      assert s[1..] == Digits(-i);
      DigitsRoundTrip(-i);
    } else {
      DigitsRoundTrip(i);
    }
  }

  /** `str` of a Python integer is a minus sign or a digit at every position, so
      neither an `@` nor any whitespace can appear in it. */
  lemma IntToStrCharacters(i: int)
    ensures |IntToStr(i)| > 0
    ensures forall k :: 0 <= k < |IntToStr(i)| ==> IntToStr(i)[k] == '-' || IsDigit(IntToStr(i)[k])
    ensures (IntToStr(i)[0] == '-') <==> i < 0
  {
  }
}
