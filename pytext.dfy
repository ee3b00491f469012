/** The two conversions between text and numbers the extractor performs:
    `str(v)` inside the f-string for the delivery time, and `float(s)` on a
    price given as a string. */
module PyText {
  import opened Results
  import opened PyJson

  predicate IsDigit(c: char)
  {
    '0' <= c <= '9'
  }

  predicate AllDigits(s: string)
  {
    forall k :: 0 <= k < |s| ==> IsDigit(s[k])
  }

  function DigitChar(d: nat): (c: char)
    requires d < 10
    ensures IsDigit(c) && (c as int) - ('0' as int) == d
  {
    "0123456789"[d]
  }

  /** The decimal digits of a natural number, most significant first, no leading zeros. */
  function Digits(n: nat): (s: string)
    ensures |s| >= 1 && AllDigits(s)
    ensures |s| > 1 ==> s[0] != '0'
    decreases n
  {
    if n < 10 then [DigitChar(n)] else Digits(n / 10) + [DigitChar(n % 10)]
  }

  /** `str(n)` for a Python int. */
  function Decimal(n: int): string
  {
    if n < 0 then "-" + Digits(-n) else Digits(n)
  }

  /** The value of a string of decimal digits. */
  function DigitsValue(s: string): nat
    requires AllDigits(s)
  {
    if s == [] then 0
    else DigitsValue(s[..|s| - 1]) * 10 + ((s[|s| - 1] as int) - ('0' as int))
  }

  /** `float(s)` restricted to the integer literals: an optional sign followed by
      one or more ASCII digits. None stands for the ValueError raised on any
      other string. */
  function ParseInt(s: string): (r: Option<int>)
    ensures r.Some? ==> |s| >= 1
    ensures r.Some? && s[0] == '-' ==> r.value <= 0
    ensures r.Some? && s[0] != '-' ==> r.value >= 0
  {
    if |s| > 1 && s[0] == '-' && AllDigits(s[1..]) then Some(-(DigitsValue(s[1..]) as int))
    else if |s| > 1 && s[0] == '+' && AllDigits(s[1..]) then Some(DigitsValue(s[1..]))
    else if |s| > 0 && AllDigits(s) then Some(DigitsValue(s))
    else None
  }

  lemma {:induction false} DigitsValueOfDigits(n: nat)
    ensures DigitsValue(Digits(n)) == n
    decreases n
  {
    var s := Digits(n);
    if n >= 10 {
      DigitsValueOfDigits(n / 10);
      assert s[..|s| - 1] == Digits(n / 10);
    }
  }

  /** Reading back what `str(n)` wrote gives n again. */
  lemma ParseIntOfDecimal(n: int)
    ensures ParseInt(Decimal(n)) == Some(n)
  {
    var s := Decimal(n);
    if n < 0 {
      assert s[0] == '-' && s[1..] == Digits(-n);
      DigitsValueOfDigits(-n);
    } else {
      assert IsDigit(s[0]);
      DigitsValueOfDigits(n);
    }
  }

  /** `", ".join(parts)`. */
  function Join(parts: seq<string>): string
  {
    if |parts| == 0 then ""
    else if |parts| == 1 then parts[0]
    else parts[0] + ", " + Join(parts[1..])
  }

  /** `repr(v)` of a JSON value. */
  function PyRepr(v: Json): string
    decreases v
  {
    match v
    case JNull => "None"
    case JBool(b) => if b then "True" else "False"
    case JInt(i) => Decimal(i)
    case JStr(s) => "'" + s + "'"
    case JArr(xs) => "[" + Join(seq(|xs|, k requires 0 <= k < |xs| => PyRepr(xs[k]))) + "]"
    case JObj(ms) =>
      "{" + Join(seq(|ms|, k requires 0 <= k < |ms| => "'" + ms[k].0 + "': " + PyRepr(ms[k].1))) + "}"
  }

  /** `str(v)`, which is what an f-string inserts: a string as it is, anything else as its repr. */
  function PyStr(v: Json): (r: string)
    ensures v.JStr? ==> r == v.s
    ensures v.JInt? ==> ParseInt(r) == Some(v.i)
  {
    ParseIntOfDecimal(if v.JInt? then v.i else 0);
    match v
    case JStr(s) => s
    case _ => PyRepr(v)
  }
}
