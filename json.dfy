// JSON values as Python's json module hands them to the code (dict, list, str,
// int, float, bool, None), with the few Python conversions the code applies.
module Json {
  import opened Wrappers
  import opened Text

  datatype Json =
    | JNull
    | JBool(b: bool)
    | JInt(i: int)
    | JReal(r: real)
    | JStr(s: string)
    | JList(items: seq<Json>)
    | JObj(fields: map<string, Json>)

  // Python truthiness (`if x:`).
  predicate Truthy(j: Json)
  {
    match j
    case JNull => false
    case JBool(b) => b
    case JInt(i) => i != 0
    case JReal(r) => r != 0.0
    case JStr(s) => s != []
    case JList(l) => l != []
    case JObj(m) => m != map[]
  }

  // `d.get(k)`: a missing key reads as None.
  function Get(m: map<string, Json>, k: string): Json
  {
    if k in m then m[k] else JNull
  }

  // `d.get(k, default)`.
  function GetOr(m: map<string, Json>, k: string, default: Json): Json
  {
    if k in m then m[k] else default
  }

  // `a or b`.
  function Or(a: Json, b: Json): Json
  {
    if Truthy(a) then a else b
  }

  // `isinstance(x, int)` holds for ints and, in Python, for bools too.
  function AsPyInt(j: Json): Option<int>
  {
    match j
    case JInt(i) => Some(i)
    case JBool(b) => Some(if b then 1 else 0)
    case _ => None
  }

  // Truncation toward zero, as `int(x)` does for a float.
  function TruncateReal(r: real): (n: int)
    ensures r >= 0.0 ==> n == r.Floor
    ensures r < 0.0 ==> n == -((-r).Floor)
  {
    if r >= 0.0 then r.Floor else -((-r).Floor)
  }

  // `int(s)` of a string: surrounding whitespace, an optional sign and ASCII digits.
  function ParseIntLiteral(s: string): Option<int>
  {
    var t := Strip(s);
    if |t| > 0 && (t[0] == '+' || t[0] == '-') && IsDigitString(t[1..]) then
      var v: int := DigitsValue(t[1..]);
      Some(if t[0] == '-' then -v else v)
    else if IsDigitString(t) then Some(DigitsValue(t))
    else None
  }

  // `int(x)`; None stands for the TypeError or ValueError it raises.
  function ToInt(j: Json): Option<int>
  {
    match j
    case JInt(i) => Some(i)
    case JBool(b) => Some(if b then 1 else 0)
    case JReal(r) => Some(TruncateReal(r))
    case JStr(s) => ParseIntLiteral(s)
    case _ => None
  }

  // `float(x)` for the numeric JSON values; None stands for the error it raises.
  function ToReal(j: Json): Option<real>
  {
    match j
    case JInt(i) => Some(i as real)
    case JBool(b) => Some(if b then 1.0 else 0.0)
    case JReal(r) => Some(r)
    case _ => None
  }

  // `str(x)`: exact for strings, ints, bools and None. The text of a float, list
  // or dict is not modelled beyond being non-empty, which Python's always is.
  function ToStr(j: Json): (r: string)
    ensures r == [] <==> j == JStr([])
    ensures j.JStr? ==> r == j.s
  {
    match j
    case JStr(s) => s
    case JInt(i) => IntToString(i)
    case JBool(b) => if b then "True" else "False"
    case JNull => "None"
    case _ => "?"
  }

  lemma DigitNotSpace(c: char)
    requires IsDigit(c)
    ensures !IsSpace(c)
  {
  }

  lemma ParseIntOfNat(n: nat)
    ensures ToInt(JStr(NatToString(n))) == Some(n)
  {
    var s := NatToString(n);
    DigitNotSpace(s[0]);
    DigitNotSpace(s[|s| - 1]);
    StripNoSpaceEnds(s);
    DigitsOfNatToString(n);
    assert ParseIntLiteral(s) == Some(n) by {
      assert Strip(s) == s;
      assert !(s[0] == '+' || s[0] == '-');
    }
  }
}
