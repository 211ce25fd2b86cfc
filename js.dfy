/** JavaScript values and the few pieces of JavaScript semantics that the
    server's validation and the form's logic depend on: truthiness, the
    whitespace class shared by `\s` and `String.prototype.trim`, `String(v)`,
    and `replace(/\D/g, '')`. */
module Js {

  datatype Option<T> = None | Some(value: T)

  /** A value as it can appear in a JSON request body, a fetched row or the
      form's state. Numbers are integers; JSON objects nested inside a field
      value are not represented. */
  datatype JsValue =
    | Undefined
    | Null
    | Bool(b: bool)
    | Num(n: int)
    | Str(s: string)
    | Arr(items: seq<JsValue>)

  /** A plain JavaScript object: its own enumerable properties. */
  type JsObject = map<string, JsValue>

  /** `o[key]`: a missing property reads as `undefined`. */
  function Prop(o: JsObject, key: string): (v: JsValue)
    ensures key !in o ==> v == Undefined
    ensures key in o ==> v == o[key]
  {
    if key in o then o[key] else Undefined
  }

  /** JavaScript truthiness: `undefined`, `null`, `false`, `0` and `''` are
      falsy; every other value, including every array, is truthy. */
  predicate Truthy(v: JsValue)
  {
    match v
    case Undefined => false
    case Null => false
    case Bool(b) => b
    case Num(n) => n != 0
    case Str(s) => s != ""
    case Arr(_) => true
  }

  /** `a || b`: the first operand when it is truthy, else the second. */
  function Or(a: JsValue, b: JsValue): (r: JsValue)
    ensures Truthy(a) ==> r == a
    ensures !Truthy(a) ==> r == b
  {
    if Truthy(a) then a else b
  }

  /** The characters matched by `\s` in a regular expression, which are also
      the characters `trim()` removes: the ECMAScript WhiteSpace and
      LineTerminator code points. */
  predicate IsSpace(c: char)
  {
    var n := c as int;
    (0x09 <= n <= 0x0D) || n == 0x20 || n == 0xA0 || n == 0x1680
    || (0x2000 <= n <= 0x200A) || n == 0x2028 || n == 0x2029
    || n == 0x202F || n == 0x205F || n == 0x3000 || n == 0xFEFF
  }

  /** `\d`: an ASCII decimal digit. */
  predicate IsDigit(c: char)
  {
    '0' <= c <= '9'
  }

  function DigitChar(d: nat): (c: char)
    requires d < 10
    ensures IsDigit(c)
    ensures c as int - '0' as int == d
  {
    (('0' as int) + d) as char
  }

  function DigitValue(c: char): (v: nat)
    requires IsDigit(c)
  {
    c as int - '0' as int
  }

  /** The decimal numeral of a natural number, without leading zeros. */
  function NatToDecimal(n: nat): (r: string)
    decreases n
    ensures |r| > 0
    ensures forall c :: c in r ==> IsDigit(c)
    ensures r[0] == '0' ==> n == 0
  {
    if n < 10 then [DigitChar(n)] else NatToDecimal(n / 10) + [DigitChar(n % 10)]
  }

  /** Reads a string of digits back as a number; the inverse of NatToDecimal. */
  function DecimalValue(s: string): (v: nat)
    requires forall c :: c in s ==> IsDigit(c)
  {
    if s == [] then 0 else DecimalValue(s[..|s| - 1]) * 10 + DigitValue(s[|s| - 1])
  }

  lemma {:induction false} DecimalRoundTrip(n: nat)
    ensures DecimalValue(NatToDecimal(n)) == n
  {
    var r := NatToDecimal(n);
    if n >= 10 {
      DecimalRoundTrip(n / 10);
      assert r[..|r| - 1] == NatToDecimal(n / 10);
    }
  }

  /** `String(n)` for an integer number. */
  function IntToDecimal(n: int): (r: string)
    ensures |r| > 0
    ensures (r[0] == '-') <==> n < 0
    ensures forall i :: 0 < i < |r| ==> IsDigit(r[i])
    ensures n >= 0 ==> (forall c :: c in r ==> IsDigit(c)) && DecimalValue(r) == n
    ensures n < 0 ==> (forall c :: c in r[1..] ==> IsDigit(c)) && DecimalValue(r[1..]) == -n
    ensures n >= 0 && r[0] == '0' ==> r == "0"
    ensures n < 0 ==> r[1] != '0'
  {
    if n < 0 then
      var d := NatToDecimal(-n);
      DecimalRoundTrip(-n);
      assert ("-" + d)[1..] == d;
      "-" + d
    else
      var r := NatToDecimal(n);
      DecimalRoundTrip(n);
      assert r[0] in r;
      r
  }

  /** `String(v)`, the conversion `RegExp.prototype.test` applies to its
      argument. An array converts to its elements joined by `,`, with
      `null` and `undefined` elements as empty strings. */
  function ToStr(v: JsValue): (r: string)
    decreases v, if v.Arr? then |v.items| + 1 else 0
  {
    match v
    case Undefined => "undefined"
    case Null => "null"
    case Bool(b) => if b then "true" else "false"
    case Num(n) => IntToDecimal(n)
    case Str(s) => s
    case Arr(items) => JoinFrom(v, 0)
  }

  function JoinFrom(v: JsValue, i: nat): (r: string)
    requires v.Arr? && i <= |v.items|
    decreases v, |v.items| - i
  {
    if i == |v.items| then ""
    else
      var e := v.items[i];
      var part := if e.Undefined? || e.Null? then "" else ToStr(e);
      (if i == 0 then "" else ",") + part + JoinFrom(v, i + 1)
  }

  /** A one-element array converts like its element, or to '' when that
      element is null or undefined; the empty array converts to ''. */
  lemma ArrayToStr(e: JsValue)
    ensures ToStr(Arr([])) == ""
    ensures ToStr(Arr([e])) == (if e.Undefined? || e.Null? then "" else ToStr(e))
  {
    assert JoinFrom(Arr([e]), 1) == "";
  }

  /** Every value but a string or an array converts to a string with no
      `@` and no whitespace. */
  lemma ScalarStringsHaveNoAt(v: JsValue)
    requires !v.Str? && !v.Arr?
    ensures '@' !in ToStr(v)
    ensures forall c :: c in ToStr(v) ==> !IsSpace(c)
  {
    match v
    case Num(n) =>
      var r := IntToDecimal(n);
      forall c | c in r ensures c != '@' && !IsSpace(c) {
        assert IsDigit(c) || c == '-';
      }
    case _ =>
  }

  /** `trimStart()`. */
  function TrimStart(s: string): (r: string)
    ensures |r| <= |s|
    ensures r == [] || !IsSpace(r[0])
    ensures r == s[|s| - |r|..]
    ensures forall k :: 0 <= k < |s| - |r| ==> IsSpace(s[k])
  {
    if s != [] && IsSpace(s[0]) then TrimStart(s[1..]) else s
  }

  /** `trimEnd()`. */
  function TrimEnd(s: string): (r: string)
    ensures |r| <= |s|
    ensures r == [] || !IsSpace(r[|r| - 1])
    ensures r == s[..|r|]
    ensures forall k :: |r| <= k < |s| ==> IsSpace(s[k])
  {
    if s != [] && IsSpace(s[|s| - 1]) then TrimEnd(s[..|s| - 1]) else s
  }

  /** `trim()`. */
  function Trim(s: string): (r: string)
  {
    TrimEnd(TrimStart(s))
  }

  /** The string holds only whitespace (or nothing at all). */
  predicate Blank(s: string)
  {
    s == [] || (IsSpace(s[0]) && Blank(s[1..]))
  }

  /** Blank, read position by position: every character is whitespace. */
  lemma {:induction false} BlankIffAllSpace(s: string)
    ensures Blank(s) <==> forall i :: 0 <= i < |s| ==> IsSpace(s[i])
  {
    if s != [] {
      BlankIffAllSpace(s[1..]);
      assert forall i :: 0 < i < |s| ==> s[i] == s[1..][i - 1];
    }
  }

  lemma {:induction false} TrimStartBlank(s: string)
    ensures TrimStart(s) == [] <==> Blank(s)
  {
    if s != [] && IsSpace(s[0]) {
      TrimStartBlank(s[1..]);
    }
  }

  /** A non-empty string is blank exactly when its last character is
      whitespace and the rest is blank. */
  lemma {:induction false} BlankSnoc(s: string)
    requires s != []
    ensures Blank(s) <==> IsSpace(s[|s| - 1]) && Blank(s[..|s| - 1])
  {
    if |s| > 1 {
      BlankSnoc(s[1..]);
      assert s[1..][..|s| - 2] == s[..|s| - 1][1..];
    }
  }

  lemma {:induction false} TrimEndEmpty(s: string)
    ensures TrimEnd(s) == [] <==> Blank(s)
  {
    if s != [] {
      BlankSnoc(s);
      if IsSpace(s[|s| - 1]) {
        TrimEndEmpty(s[..|s| - 1]);
      }
    }
  }

  /** `s.trim()` is the empty string exactly when `s` is blank, and otherwise
      it starts and ends with a character that is not whitespace. */
  lemma TrimEmptyIffBlank(s: string)
    ensures Trim(s) == "" <==> Blank(s)
    ensures Trim(s) != "" ==> !IsSpace(Trim(s)[0]) && !IsSpace(Trim(s)[|Trim(s)| - 1])
  {
    var t := TrimStart(s);
    var u := TrimEnd(t);
    TrimStartBlank(s);
    TrimEndEmpty(t);
    if u != "" {
      assert u == t[..|u|];
      assert u[0] == t[0];
    }
  }

  /** `!s.trim()`: trimming leaves nothing exactly when s is blank. */
  method TrimsToEmpty(s: string) returns (empty: bool)
    ensures empty <==> Blank(s)
  {
    TrimEmptyIffBlank(s);
    empty := Trim(s) == "";
  }

  /** `s.replace(/\D/g, '')`: the digits of `s`, in order. */
  function Digits(s: string): (r: string)
    ensures |r| <= |s|
    ensures forall i :: 0 <= i < |r| ==> IsDigit(r[i])
  {
    if s == [] then ""
    else if IsDigit(s[0]) then [s[0]] + Digits(s[1..])
    else Digits(s[1..])
  }

  /** A character survives the removal exactly when it occurs in s and is a
      digit. */
  lemma {:induction false} DigitsMembership(s: string)
    ensures forall c :: c in Digits(s) <==> c in s && IsDigit(c)
  {
    if s != [] {
      DigitsMembership(s[1..]);
      assert s == [s[0]] + s[1..];
    }
  }

  lemma {:induction false} DigitsOfConcat(a: string, b: string)
    ensures Digits(a + b) == Digits(a) + Digits(b)
  {
    if a != [] {
      assert (a + b)[1..] == a[1..] + b;
      DigitsOfConcat(a[1..], b);
    } else {
      assert a + b == b;
    }
  }

  /** Removing non-digits is idempotent and leaves a digit string as it is. */
  lemma {:induction false} DigitsOfDigits(s: string)
    requires forall c :: c in s ==> IsDigit(c)
    ensures Digits(s) == s
  {
    if s != [] {
      assert s[0] in s;
      DigitsOfDigits(s[1..]);
    }
  }
}
