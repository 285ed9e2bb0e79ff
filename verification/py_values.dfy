/**
 * Python values as the Jellyfin client handles them: the scalars that come out
 * of JSON replies and out of the host's metadata dictionaries, Python
 * truthiness (`if x:`) and Python's `str()` (also what `'%s' % x` produces).
 */
module PyValues {

  datatype Option<T> = None | Some(value: T) {
    /** `d.get(key, default)` when the key may be absent. */
    function GetOr(default: T): T {
      if Some? then value else default
    }
  }

  /** A step that either yields a value or raises a Python exception. */
  datatype Result<T> = Ok(value: T) | Raised

  /** A JSON or Python scalar: `None`, a boolean, an integer or a string. */
  datatype Scalar = Null | Bool(b: bool) | Int(i: int) | Text(s: string)

  /** Python truthiness: `None`, `False`, `0` and `''` are false. */
  predicate Truthy(v: Scalar)
    ensures Truthy(v) <==> v !in {Null, Bool(false), Int(0), Text("")}
  {
    match v
    case Null => false
    case Bool(b) => b
    case Int(i) => i != 0
    case Text(s) => s != ""
  }

  function DigitChar(d: nat): (c: char)
    requires d < 10
    ensures c as int == '0' as int + d
  {
    "0123456789"[d]
  }

  predicate IsDigit(c: char) {
    '0' <= c <= '9'
  }

  /** The decimal numeral of `n`, most significant digit first, no leading zero. */
  function Decimal(n: nat): (r: string)
    ensures 1 <= |r|
    ensures forall k :: 0 <= k < |r| ==> IsDigit(r[k])
    ensures 1 < |r| ==> r[0] != '0'
    decreases n
  {
    if n < 10 then [DigitChar(n)] else Decimal(n / 10) + [DigitChar(n % 10)]
  }

  /** Reads a string of digits back as a number (the inverse of `Decimal`). */
  function ParseDecimal(s: string): nat
    requires forall k :: 0 <= k < |s| ==> IsDigit(s[k])
    decreases |s|
  {
    if s == [] then 0
    else
      var last := s[|s| - 1];
      assert IsDigit(last);
      10 * ParseDecimal(s[..|s| - 1]) + (last as int - '0' as int)
  }

  lemma {:induction false} ParseDecimalOfDecimal(n: nat)
    ensures ParseDecimal(Decimal(n)) == n
    decreases n
  {
    var r := Decimal(n);
    if n >= 10 {
      ParseDecimalOfDecimal(n / 10);
      assert r[..|r| - 1] == Decimal(n / 10);
    }
  }

  /** Python's `str(i)` for an integer. */
  function IntStr(i: int): string {
    if i < 0 then "-" + Decimal(-i) else Decimal(i)
  }

  /** A numeral starts with `-` exactly when the number is negative. */
  lemma IntStrSign(i: int)
    ensures IntStr(i)[0] == '-' <==> i < 0
  {
    if i >= 0 {
      assert IsDigit(Decimal(i)[0]);
    }
  }

  lemma DecimalInjective(m: nat, n: nat)
    ensures Decimal(m) == Decimal(n) ==> m == n
  {
    ParseDecimalOfDecimal(m);
    ParseDecimalOfDecimal(n);
  }

  /** Different integers have different numerals. */
  lemma IntStrInjective(i: int, j: int)
    ensures IntStr(i) == IntStr(j) ==> i == j
  {
    if IntStr(i) == IntStr(j) {
      IntStrSign(i);
      IntStrSign(j);
      if i < 0 {
        assert j < 0;
        assert Decimal(-i) == IntStr(i)[1..] == IntStr(j)[1..] == Decimal(-j);
        DecimalInjective(-i, -j);
      } else {
        assert j >= 0;
        DecimalInjective(i, j);
      }
    }
  }

  /** Python's `str(v)` (equivalently `'%s' % v`). */
  function Str(v: Scalar): (r: string)
    ensures r == "" <==> v == Text("")
    ensures v.Int? ==> (r[0] == '-' <==> v.i < 0)
  {
    match v
    case Null => "None"
    case Bool(b) => if b then "True" else "False"
    case Int(i) => IntStrSign(i); IntStr(i)
    case Text(s) => s
  }

  /**
   * Comparing `str(x) == str(y)` with an integer `y` accepts exactly the integer
   * itself and its decimal spelling as a string; `None` and booleans never match.
   */
  lemma StrEqualsIntStr(v: Scalar, y: int)
    ensures Str(v) == Str(Int(y)) <==> v == Int(y) || v == Text(IntStr(y))
  {
    var t := IntStr(y);
    assert t[0] == '-' || IsDigit(t[0]);
    match v
    case Null =>
      assert Str(v)[0] == 'N';
    case Bool(b) =>
      assert Str(v)[0] == 'T' || Str(v)[0] == 'F';
    case Int(i) =>
      if Str(v) == Str(Int(y)) {
        IntStrInjective(i, y);
      }
    case Text(s) =>
  }
}
