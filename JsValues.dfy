/**
 * The JavaScript values that reach the server through a parsed JSON request
 * body or the route parameters, with the two pieces of JavaScript semantics
 * the server relies on: truthiness (`if (req.body.X)`) and string conversion
 * (`'/employees/' + value`), plus `String.prototype.indexOf`.
 */
module JsValues {
  import opened Wrappers

  /**
   * A value of a parsed JSON body. Numbers are integral. Objects and arrays
   * are one case, carrying the text string conversion gives them:
   * "[object Object]" for a plain object, the comma-joined elements for an
   * array, and `None` when conversion throws, as it does for an object whose
   * "toString" key holds a non-function.
   */
  datatype JsValue =
    | Undefined
    | Null
    | Bool(b: bool)
    | Num(n: int)
    | Str(s: string)
    | Obj(text: Option<string>)

  /** JavaScript truthiness: `undefined`, `null`, `false`, `0` and `""` are falsy. */
  predicate Truthy(v: JsValue)
  {
    match v
    case Undefined => false
    case Null => false
    case Bool(b) => b
    case Num(n) => n != 0
    case Str(s) => s != ""
    case Obj(_) => true
  }

  /** Property access `obj.key` on a plain object: a missing key reads as `undefined`. */
  function Lookup(obj: map<string, JsValue>, key: string): (v: JsValue)
    ensures key !in obj ==> v == Undefined
    ensures key in obj ==> v == obj[key]
  {
    if key in obj then obj[key] else Undefined
  }

  /** Route parameters are strings; a parameter the route does not declare reads as `undefined`. */
  function Param(params: map<string, string>, key: string): (v: JsValue)
    ensures key !in params ==> v == Undefined
    ensures key in params ==> v == Str(params[key])
  {
    if key in params then Str(params[key]) else Undefined
  }

  function DigitChar(d: nat): (c: char)
    requires d < 10
    ensures '0' <= c <= '9'
  {
    ('0' as int + d) as char
  }

  /** The decimal digits of `n`, most significant first, without leading zeros. */
  function Decimal(n: nat): (r: string)
    ensures |r| >= 1
    ensures forall i :: 0 <= i < |r| ==> '0' <= r[i] <= '9'
    ensures r[0] == '0' <==> n == 0
    decreases n
  {
    if n < 10 then [DigitChar(n)] else Decimal(n / 10) + [DigitChar(n % 10)]
  }

  /**
   * The string a value becomes when it is concatenated to a string, or `None`
   * when the conversion throws a TypeError.
   */
  function ToJsString(v: JsValue): (r: Option<string>)
    ensures r.None? <==> v.Obj? && v.text.None?
    ensures v.Str? ==> r == Some(v.s)
    ensures v.Undefined? ==> r == Some("undefined")
  {
    match v
    case Undefined => Some("undefined")
    case Null => Some("null")
    case Bool(b) => Some(if b then "true" else "false")
    case Num(n) => Some(if n < 0 then "-" + Decimal(-n) else Decimal(n))
    case Str(s) => Some(s)
    case Obj(text) => text
  }

  /** A decimal numeral as JavaScript prints an integer: digits only, no leading zero unless it is "0". */
  predicate Numeral(r: string)
  {
    && |r| >= 1
    && (forall i :: 0 <= i < |r| ==> '0' <= r[i] <= '9')
    && (r[0] == '0' ==> |r| == 1)
  }

  /** The value a string of decimal digits denotes, most significant digit first. */
  function DigitsValue(r: string): nat
    requires forall i :: 0 <= i < |r| ==> '0' <= r[i] <= '9'
  {
    if r == [] then 0
    else 10 * DigitsValue(r[..|r| - 1]) + (r[|r| - 1] as int - '0' as int)
  }

  /** Reading the printed digits of `n` back gives `n`. */
  lemma {:induction false} DecimalValue(n: nat)
    ensures DigitsValue(Decimal(n)) == n
    decreases n
  {
    if n >= 10 {
      var r := Decimal(n);
      assert r[..|r| - 1] == Decimal(n / 10);
      DecimalValue(n / 10);
    }
  }

  /**
   * The text a number becomes when concatenated to a string: its numeral,
   * preceded by "-" when it is negative, and that numeral reads back as the
   * number's magnitude.
   */
  lemma NumberText(n: int)
    ensures ToJsString(Num(n)).Some?
    ensures n >= 0 ==> Numeral(ToJsString(Num(n)).value) && DigitsValue(ToJsString(Num(n)).value) == n
    ensures n < 0 ==>
      var r := ToJsString(Num(n)).value;
      |r| >= 2 && r[0] == '-' && Numeral(r[1..]) && DigitsValue(r[1..]) == -n
  {
    var m := if n < 0 then -n else n;
    DecimalValue(m);
    if n < 0 {
      assert ToJsString(Num(n)).value[1..] == Decimal(m);
    }
  }

  /** `sub` occurs in `s` starting at index `i`. */
  predicate OccursAt(s: string, sub: string, i: int)
  {
    0 <= i && i + |sub| <= |s| && s[i..i + |sub|] == sub
  }

  /** `s.indexOf(sub)`: the first index at which `sub` occurs in `s`, or -1. */
  function IndexOf(s: string, sub: string): (r: int)
    ensures -1 <= r <= |s|
    decreases |s|
  {
    if |s| < |sub| then -1
    else if s[..|sub|] == sub then 0
    else
      var k := IndexOf(s[1..], sub);
      if k < 0 then -1 else k + 1
  }

  /** `indexOf` finds the first occurrence, and reports -1 exactly when there is none. */
  lemma {:induction false} IndexOfFindsFirst(s: string, sub: string)
    ensures IndexOf(s, sub) >= 0 ==> OccursAt(s, sub, IndexOf(s, sub))
    ensures forall i :: 0 <= i < IndexOf(s, sub) ==> !OccursAt(s, sub, i)
    ensures IndexOf(s, sub) == -1 <==> forall i :: !OccursAt(s, sub, i)
    decreases |s|
  {
    if |s| < |sub| {
    } else if s[..|sub|] == sub {
      assert OccursAt(s, sub, 0);
    } else {
      var k := IndexOf(s[1..], sub);
      IndexOfFindsFirst(s[1..], sub);
      assert !OccursAt(s, sub, 0);
      if k < 0 {
        AbsentFromTail(s, sub);
      } else {
        FirstInTail(s, sub, k);
      }
    }
  }

  /** Absent from the tail and not at index 0: absent everywhere. */
  lemma AbsentFromTail(s: string, sub: string)
    requires |s| >= 1 && !OccursAt(s, sub, 0)
    requires forall i :: !OccursAt(s[1..], sub, i)
    ensures forall i :: !OccursAt(s, sub, i)
  {
    forall i | 1 <= i ensures !OccursAt(s, sub, i) {
      OccursShifted(s, sub, i);
    }
  }

  /** First found at `k` in the tail and not at index 0: first found at `k + 1`. */
  lemma FirstInTail(s: string, sub: string, k: nat)
    requires |s| >= 1 && !OccursAt(s, sub, 0)
    requires OccursAt(s[1..], sub, k) && forall i :: 0 <= i < k ==> !OccursAt(s[1..], sub, i)
    ensures OccursAt(s, sub, k + 1) && forall i :: 0 <= i < k + 1 ==> !OccursAt(s, sub, i)
  {
    OccursShifted(s, sub, k + 1);
    forall i | 1 <= i < k + 1 ensures !OccursAt(s, sub, i) {
      OccursShifted(s, sub, i);
    }
  }

  /** An occurrence at `i >= 1` in `s` is an occurrence at `i - 1` in its tail. */
  lemma OccursShifted(s: string, sub: string, i: int)
    requires 1 <= i && |s| >= 1
    ensures OccursAt(s, sub, i) == OccursAt(s[1..], sub, i - 1)
  {
    if i + |sub| <= |s| {
      assert s[1..][i - 1..i - 1 + |sub|] == s[i..i + |sub|];
    }
  }
}
