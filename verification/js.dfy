/** JavaScript value semantics that the modelled code relies on: optional values, the
    JSON-like values it reads and builds, truthiness, the whitespace class of `\s` and of
    `String.prototype.trim`, ASCII lowercasing, and the integer part of `Number(s)` and
    `parseInt(s)`. Numbers are integers here; `None` stands for `NaN`. */
module Js {

  datatype Option<T> = None | Some(value: T)

  datatype Result<T, E> = Ok(value: T) | Err(error: E)

  datatype Outcome<E> = Pass | Fail(error: E)

  /** An `Error` object carrying an HTTP `status`. */
  datatype HttpError = HttpError(message: string, status: int)

  /** Message standing for a `TypeError` the runtime throws (a property read on `undefined`
      or `null`, a method missing on a value). */
  const TypeErrorMessage := "TypeError"

  /** A JavaScript value as it appears in request bodies and in `toObject()` results. */
  datatype Json =
    | JUndefined
    | JNull
    | JBool(b: bool)
    | JNum(n: int)
    | JStr(s: string)
    | JArr(items: seq<Json>)
    | JObj(fields: map<string, Json>)

  /** JavaScript truthiness. */
  predicate Truthy(j: Json) {
    match j
    case JUndefined => false
    case JNull => false
    case JBool(b) => b
    case JNum(n) => n != 0
    case JStr(s) => s != ""
    case _ => true
  }

  /** `o[key]` on an object that has been checked not to be `null` or `undefined`. */
  function Get(o: Json, key: string): Json {
    if o.JObj? && key in o.fields then o.fields[key] else JUndefined
  }

  /** `undefined` or a string. */
  function OptStr(s: Option<string>): Json {
    match s
    case None => JUndefined
    case Some(t) => JStr(t)
  }

  /** The characters of `\s` in a regular expression, which are also the ones `Number` and
      `parseInt` skip: white space and line terminators. */
  predicate IsSpace(c: char) {
    || c == '\t' || c == '\n' || c == '\U{000B}' || c == '\U{000C}' || c == '\r'
    || c == ' ' || c == '\U{00A0}' || c == '\U{1680}' || ('\U{2000}' <= c <= '\U{200A}')
    || c == '\U{2028}' || c == '\U{2029}' || c == '\U{202F}' || c == '\U{205F}'
    || c == '\U{3000}' || c == '\U{FEFF}'
  }

  function LowerChar(c: char): char {
    if 'A' <= c <= 'Z' then (c as int + 32) as char else c
  }

  /** `s.toLowerCase()` on the ASCII letters. */
  function LowerAscii(s: string): (r: string)
    ensures |r| == |s|
    ensures forall i :: 0 <= i < |s| ==> r[i] == LowerChar(s[i])
  {
    if s == [] then [] else [LowerChar(s[0])] + LowerAscii(s[1..])
  }

  lemma {:induction false} LowerAsciiIdempotent(s: string)
    ensures LowerAscii(LowerAscii(s)) == LowerAscii(s)
  {
    var once := LowerAscii(s);
    var twice := LowerAscii(once);
    assert |twice| == |once|;
    forall i | 0 <= i < |once| ensures twice[i] == once[i] {
      assert twice[i] == LowerChar(once[i]);
    }
  }

  /** `s` without its leading white space. */
  function TrimStart(s: string): (r: string)
    ensures |r| <= |s| && r == s[|s| - |r|..]
    ensures r == [] || !IsSpace(r[0])
    ensures forall i :: 0 <= i < |s| - |r| ==> IsSpace(s[i])
  {
    if s != [] && IsSpace(s[0]) then TrimStart(s[1..]) else s
  }

  /** `s` without its trailing white space. */
  function TrimEnd(s: string): (r: string)
    ensures |r| <= |s| && r == s[..|r|]
    ensures r == [] || !IsSpace(r[|r| - 1])
    ensures forall i :: |r| <= i < |s| ==> IsSpace(s[i])
  {
    if s != [] && IsSpace(s[|s| - 1]) then TrimEnd(s[..|s| - 1]) else s
  }

  /** The value of `c` as a digit (0-9, then a-z and A-Z for 10-35), or 36 for any other character. */
  function DigitValue(c: char): nat {
    if '0' <= c <= '9' then c as int - '0' as int
    else if 'a' <= c <= 'z' then c as int - 'a' as int + 10
    else if 'A' <= c <= 'Z' then c as int - 'A' as int + 10
    else 36
  }

  predicate IsDigit(c: char, radix: nat) {
    DigitValue(c) < radix
  }

  predicate AllDigits(s: string, radix: nat) {
    forall i :: 0 <= i < |s| ==> IsDigit(s[i], radix)
  }

  /** The number the digits `s` denote in base `radix`, most significant first. */
  function DigitsValue(s: string, radix: nat): nat
    requires AllDigits(s, radix)
  {
    if s == [] then 0 else DigitsValue(s[..|s| - 1], radix) * radix + DigitValue(s[|s| - 1])
  }

  /** The length of the longest prefix of `s` made of digits of base `radix`. */
  function DigitPrefix(s: string, radix: nat): (k: nat)
    ensures k <= |s| && AllDigits(s[..k], radix)
    ensures k < |s| ==> !IsDigit(s[k], radix)
  {
    if s != [] && IsDigit(s[0], radix) then 1 + DigitPrefix(s[1..], radix) else 0
  }

  predicate HasRadixPrefix(t: string, lower: char, upper: char) {
    |t| >= 2 && t[0] == '0' && (t[1] == lower || t[1] == upper)
  }

  /** Non-empty digits of base `radix`, read as a number; `None` otherwise. */
  function ReadDigits(t: string, radix: nat): Option<int> {
    if t != [] && AllDigits(t, radix) then Some(DigitsValue(t, radix)) else None
  }

  /** `Number(s)` (the unary `+s`) for strings that denote integers: surrounding white space is
      ignored, the empty string is 0, a decimal literal may carry a sign, and `0x`, `0o`, `0b`
      literals are read in base 16, 8 and 2. Every other string is `None` (`NaN`) here. */
  function ToNumber(s: string): (r: Option<int>)
    ensures TrimEnd(TrimStart(s)) == [] ==> r == Some(0)
  {
    var t := TrimEnd(TrimStart(s));
    if t == [] then Some(0)
    else if HasRadixPrefix(t, 'x', 'X') then ReadDigits(t[2..], 16)
    else if HasRadixPrefix(t, 'o', 'O') then ReadDigits(t[2..], 8)
    else if HasRadixPrefix(t, 'b', 'B') then ReadDigits(t[2..], 2)
    else if t[0] == '-' then
      match ReadDigits(t[1..], 10)
      case None => None
      case Some(n) => Some(-n)
    else if t[0] == '+' then ReadDigits(t[1..], 10)
    else ReadDigits(t, 10)
  }

  /** `parseInt(s)` without a radix: leading white space is skipped, a sign is read, a `0x` or
      `0X` prefix selects base 16, and the longest digit prefix is read; `None` (`NaN`) when
      there is no digit. */
  function ParseInt(s: string): (r: Option<int>)
  {
    var t := TrimStart(s);
    var negative := t != [] && t[0] == '-';
    var u := if t != [] && (t[0] == '-' || t[0] == '+') then t[1..] else t;
    var radix: nat := if HasRadixPrefix(u, 'x', 'X') then 16 else 10;
    var d := if radix == 16 then u[2..] else u;
    var k := DigitPrefix(d, radix);
    var magnitude: int := if k == 0 then 0 else DigitsValue(d[..k], radix);
    if k == 0 then None
    else if negative then Some(-magnitude)
    else Some(magnitude)
  }

  function DigitChar(d: nat): char
    requires d < 10
  {
    ('0' as int + d) as char
  }

  /** The decimal numeral of `n`, as `String(n)` writes it. */
  function Decimal(n: nat): (r: string)
    ensures r != [] && AllDigits(r, 10)
    ensures |r| > 1 ==> r[0] != '0'
  {
    if n < 10 then [DigitChar(n)] else Decimal(n / 10) + [DigitChar(n % 10)]
  }

  lemma {:induction false} DecimalValue(n: nat)
    ensures DigitsValue(Decimal(n), 10) == n
  {
    if n >= 10 {
      var r := Decimal(n);
      DecimalValue(n / 10);
      assert r[..|r| - 1] == Decimal(n / 10);
      assert DigitValue(r[|r| - 1]) == n % 10;
    }
  }

  /** A numeral has no white space to trim and no radix prefix, and all of it is digits. */
  lemma {:induction false} NumeralShape(r: string)
    requires r != [] && AllDigits(r, 10) && (|r| > 1 ==> r[0] != '0')
    ensures TrimStart(r) == r && TrimEnd(r) == r
    ensures !HasRadixPrefix(r, 'x', 'X') && !HasRadixPrefix(r, 'o', 'O') && !HasRadixPrefix(r, 'b', 'B')
    ensures r[0] != '-' && r[0] != '+'
    ensures DigitPrefix(r, 10) == |r|
  {
    assert IsDigit(r[0], 10) && IsDigit(r[|r| - 1], 10);
    if |r| >= 2 { assert IsDigit(r[1], 10); }
  }

  /** Reading back a numeral: `Number(String(n)) == n`. */
  lemma DecimalToNumber(n: nat)
    ensures ToNumber(Decimal(n)) == Some(n)
  {
    NumeralShape(Decimal(n));
    DecimalValue(n);
  }

  /** Reading back a numeral: `parseInt(String(n)) == n`. */
  lemma DecimalParseInt(n: nat)
    ensures ParseInt(Decimal(n)) == Some(n)
  {
    var r := Decimal(n);
    NumeralShape(r);
    DecimalValue(n);
    assert r[..|r|] == r;
  }
}
