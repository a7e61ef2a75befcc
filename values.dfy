/**
 * The values a template manipulates and the PHP 7 conversions the
 * interpreter applies to them: string conversion for output, truthiness,
 * count, integer conversion for arithmetic, and the loose comparisons
 * `==` and `<` used by the decision tags. Only integers are numbers here.
 */
module Values {
  import opened Grammar

  /** A PHP value: a mapping is an ordered array with string keys, as PHP keeps insertion order. */
  datatype Value =
    | Null
    | Bool(b: bool)
    | Num(n: int)
    | Str(s: string)
    | List(items: seq<Value>)
    | Dict(entries: seq<(string, Value)>)

  predicate IsArray(v: Value) {
    v.List? || v.Dict?
  }

  predicate IsScalar(v: Value) {
    !IsArray(v)
  }

  predicate IsDigit(c: char) {
    '0' <= c <= '9'
  }

  function DigitChar(d: nat): (c: char)
    requires d < 10
    ensures IsDigit(c)
  {
    ('0' as int + d) as char
  }

  /** The decimal digits of n, most significant first. */
  function NatToString(n: nat): (r: string)
    ensures |r| >= 1
    ensures forall i | 0 <= i < |r| :: IsDigit(r[i])
  {
    if n < 10 then [DigitChar(n)] else NatToString(n / 10) + [DigitChar(n % 10)]
  }

  /** PHP's decimal conversion of an integer. */
  function IntToString(n: int): string {
    if n < 0 then "-" + NatToString(-n) else NatToString(n)
  }

  /** The value of a run of decimal digits. */
  function DigitsValue(d: string): nat
    requires forall i | 0 <= i < |d| :: IsDigit(d[i])
  {
    if d == [] then 0
    else
      assert IsDigit(d[|d| - 1]);
      DigitsValue(d[..|d| - 1]) * 10 + (d[|d| - 1] as int - '0' as int)
  }

  /** The leading whitespace PHP skips when reading a number out of a string. */
  predicate IsNumberSpace(c: char) {
    c == ' ' || c == '\t' || c == '\n' || c == '\r' || c == '\U{000B}' || c == '\U{000C}'
  }

  /** Where the digits of the leading integer of s begin, and whether it is negative. */
  function SignEnd(s: string): (r: (nat, bool))
    ensures r.0 <= |s|
  {
    var a := RunEnd(s, 0, IsNumberSpace);
    if a < |s| && (s[a] == '-' || s[a] == '+') then (a + 1, s[a] == '-') else (a, false)
  }

  /** The integer PHP reads from the front of s: whitespace, a sign, digits; 0 when there are no digits. */
  function LeadingInt(s: string): int {
    var (d, neg) := SignEnd(s);
    var e := RunEnd(s, d, IsDigit);
    var v: int := DigitsValue(s[d..e]);
    if neg then -v else v
  }

  /** A numeric string in the integer sense: whitespace, an optional sign, at least one digit, nothing else. */
  predicate IsNumericString(s: string) {
    var (d, _) := SignEnd(s);
    d < |s| && RunEnd(s, d, IsDigit) == |s|
  }

  /** PHP's truthiness. */
  predicate Truthy(v: Value) {
    match v
    case Null => false
    case Bool(b) => b
    case Num(n) => n != 0
    case Str(s) => s != "" && s != "0"
    case List(xs) => xs != []
    case Dict(es) => es != []
  }

  /** count(): the number of elements of an array, 0 for null, 1 for any other scalar. */
  function Count(v: Value): (r: nat)
    ensures IsArray(v) ==> (r == 0 <==> !Truthy(v))
  {
    match v
    case Null => 0
    case List(xs) => |xs|
    case Dict(es) => |es|
    case _ => 1
  }

  /** The string PHP's concatenation makes of a value: arrays become "Array". */
  function ToText(v: Value): string {
    match v
    case Null => ""
    case Bool(b) => if b then "1" else ""
    case Num(n) => IntToString(n)
    case Str(s) => s
    case _ => "Array"
  }

  /** The integer a scalar stands for in arithmetic. */
  function ToInt(v: Value): int
    requires IsScalar(v)
  {
    match v
    case Null => 0
    case Bool(b) => if b then 1 else 0
    case Num(n) => n
    case Str(s) => LeadingInt(s)
  }

  function IntCmp(x: int, y: int): int {
    if x < y then -1 else if x == y then 0 else 1
  }

  function BoolCmp(x: bool, y: bool): int {
    if x == y then 0 else if y then -1 else 1
  }

  /** strcmp: lexicographic order of the characters, a proper prefix first. */
  function LexCmp(s: string, t: string): (r: int)
    ensures r == 0 <==> s == t
    ensures -1 <= r <= 1
  {
    if s == [] && t == [] then 0
    else if s == [] then -1
    else if t == [] then 1
    else if s[0] < t[0] then -1
    else if s[0] > t[0] then 1
    else
      var r := LexCmp(s[1..], t[1..]);
      assert s == [s[0]] + s[1..] && t == [t[0]] + t[1..];
      r
  }

  /** Two strings compare as numbers when both are numeric and as text otherwise. */
  function StrCmp(s: string, t: string): int {
    if IsNumericString(s) && IsNumericString(t) then IntCmp(LeadingInt(s), LeadingInt(t)) else LexCmp(s, t)
  }

  /**
   * PHP 7's `<=>` on two scalars: a bool on either side compares truthiness;
   * null against a string compares "" with it; null against anything else
   * compares truthiness; a number against a string reads the string as a number.
   */
  function Compare(a: Value, b: Value): (r: int)
    requires IsScalar(a) && IsScalar(b)
    ensures -1 <= r <= 1
  {
    match (a, b)
    case (Bool(_), _) => BoolCmp(Truthy(a), Truthy(b))
    case (_, Bool(_)) => BoolCmp(Truthy(a), Truthy(b))
    case (Null, Str(t)) => LexCmp("", t)
    case (Str(s), Null) => LexCmp(s, "")
    case (Null, _) => BoolCmp(Truthy(a), Truthy(b))
    case (_, Null) => BoolCmp(Truthy(a), Truthy(b))
    case (Num(x), Num(y)) => IntCmp(x, y)
    case (Num(x), Str(t)) => IntCmp(x, LeadingInt(t))
    case (Str(s), Num(y)) => IntCmp(LeadingInt(s), y)
    case (Str(s), Str(t)) => StrCmp(s, t)
  }

  /** PHP 7's loose `==` on two scalars, under the same conversions as Compare. */
  predicate LooseEq(a: Value, b: Value)
    requires IsScalar(a) && IsScalar(b)
  {
    match (a, b)
    case (Bool(x), _) => x == Truthy(b)
    case (_, Bool(y)) => Truthy(a) == y
    case (Null, Str(t)) => t == ""
    case (Str(s), Null) => s == ""
    case (Null, _) => !Truthy(b)
    case (_, Null) => !Truthy(a)
    case (Num(x), Num(y)) => x == y
    case (Num(x), Str(t)) => x == LeadingInt(t)
    case (Str(s), Num(y)) => LeadingInt(s) == y
    case (Str(s), Str(t)) => if IsNumericString(s) && IsNumericString(t) then LeadingInt(s) == LeadingInt(t) else s == t
  }

  /** `==` is exactly `<=>` giving 0. */
  lemma LooseEqIsCompareZero(a: Value, b: Value)
    requires IsScalar(a) && IsScalar(b)
    ensures LooseEq(a, b) <==> Compare(a, b) == 0
  {
  }

  lemma LexCmpAntisymmetric(s: string, t: string)
    ensures LexCmp(s, t) == -LexCmp(t, s)
  {
  }

  /** Swapping the operands negates the comparison, so `a > b` and `b < a` agree. */
  lemma CompareAntisymmetric(a: Value, b: Value)
    requires IsScalar(a) && IsScalar(b)
    ensures Compare(a, b) == -Compare(b, a)
  {
    match (a, b)
    case (Str(s), Str(t)) => LexCmpAntisymmetric(s, t);
    case (Null, Str(t)) => LexCmpAntisymmetric("", t);
    case (Str(s), Null) => LexCmpAntisymmetric(s, "");
    case _ =>
  }

  lemma {:induction false} DigitsValueOfNat(n: nat)
    ensures DigitsValue(NatToString(n)) == n
  {
    var r := NatToString(n);
    if n >= 10 {
      DigitsValueOfNat(n / 10);
      assert r[..|r| - 1] == NatToString(n / 10);
    }
  }

  /** Reading back the decimal text of an integer gives the integer. */
  lemma LeadingIntOfIntToString(n: int)
    ensures LeadingInt(IntToString(n)) == n
    ensures IsNumericString(IntToString(n))
  {
    var s := IntToString(n);
    var m: nat := if n < 0 then -n else n;
    var digits := NatToString(m);
    assert RunEnd(s, 0, IsNumberSpace) == 0;
    var d := if n < 0 then 1 else 0;
    assert s[d..] == digits;
    assert SignEnd(s) == (d, n < 0);
    RunEndAll(s, d);
    assert s[d..|s|] == digits;
    DigitsValueOfNat(m);
  }

  lemma {:induction false} RunEndAll(s: string, d: nat)
    requires d <= |s|
    requires forall i | d <= i < |s| :: IsDigit(s[i])
    ensures RunEnd(s, d, IsDigit) == |s|
    decreases |s| - d
  {
    if d < |s| {
      RunEndAll(s, d + 1);
    }
  }

  /** Output text of a number is its decimal text; output text of true is "1". */
  lemma ToTextExamples()
    ensures ToText(Num(0)) == "0" && ToText(Num(-42)) == "-42" && ToText(Bool(true)) == "1"
  {
    assert NatToString(42) == NatToString(4) + [DigitChar(2)];
  }

  /** PHP 7 examples: 0 == "a" holds, "1" == "01" holds, "abc" < "abd", null == false. */
  lemma LooseExamples()
    ensures LooseEq(Num(0), Str("a"))
    ensures LooseEq(Str("1"), Str("01"))
    ensures !LooseEq(Str("abc"), Str("ABC"))
    ensures Compare(Str("abc"), Str("abd")) == -1
    ensures LooseEq(Null, Bool(false))
  {
    assert SignEnd("a") == (0, false);
    assert RunEnd("a", 0, IsDigit) == 0;
    assert SignEnd("1") == (0, false);
    assert RunEnd("1", 0, IsDigit) == 1;
    assert SignEnd("01") == (0, false);
    assert RunEnd("01", 1, IsDigit) == 2;
    assert RunEnd("01", 0, IsDigit) == 2;
    assert "01"[0..2][..1] == "0";
    assert !IsNumericString("abc");
  }
}
