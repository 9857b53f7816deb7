/**
 * JavaScript scalars as they reach the hooks' handlers, and the string
 * primitives the hooks call: `trim`, `toLowerCase`, `includes`, `indexOf`,
 * `split`, `parseInt` and `Number`.
 */
module Common {

  datatype Option<T> = None | Some(value: T)

  /**
   * A form or record value. Form inputs deliver strings, records loaded from
   * the backend hold numbers, and `parseInt` can produce NaN. `Undef` stands
   * for a missing property (`undefined`) and for `null`.
   */
  datatype Field = Str(s: string) | Int(n: int) | NaN | Undef

  /** JavaScript truthiness: "", 0, NaN, undefined and null are falsy. */
  predicate Truthy(f: Field) {
    match f
    case Str(s) => s != ""
    case Int(n) => n != 0
    case NaN => false
    case Undef => false
  }

  /** Strict equality (`===`) on fields: NaN equals nothing, not even itself. */
  predicate StrictEq(a: Field, b: Field) {
    match (a, b)
    case (Str(x), Str(y)) => x == y
    case (Int(x), Int(y)) => x == y
    case (Undef, Undef) => true
    case _ => false
  }

  lemma StrictEqIsPartialEquivalence(a: Field, b: Field, c: Field)
    ensures StrictEq(a, a) <==> !a.NaN?
    ensures StrictEq(a, b) ==> StrictEq(b, a) && a == b
    ensures StrictEq(a, b) && StrictEq(b, c) ==> StrictEq(a, c)
  {
  }

  // ---------------------------------------------------------------------
  // Whitespace and trim
  // ---------------------------------------------------------------------

  /** The characters `String.prototype.trim` removes: WhiteSpace and LineTerminator. */
  predicate IsWs(c: char) {
    c == ' ' || c == '\t' || c == '\n' || c == '\r' || c == '\U{000B}' || c == '\U{000C}'
    || c == '\U{00A0}' || c == '\U{FEFF}' || c == '\U{1680}' || ('\U{2000}' <= c <= '\U{200A}')
    || c == '\U{2028}' || c == '\U{2029}' || c == '\U{202F}' || c == '\U{205F}' || c == '\U{3000}'
  }

  /** Number of whitespace characters at the start of `s`. */
  function LeadingWs(s: string): (k: nat)
    ensures k <= |s|
    ensures forall i :: 0 <= i < k ==> IsWs(s[i])
    ensures k < |s| ==> !IsWs(s[k])
  {
    if |s| > 0 && IsWs(s[0]) then 1 + LeadingWs(s[1..]) else 0
  }

  /** Number of whitespace characters at the end of `s`. */
  function TrailingWs(s: string): (k: nat)
    ensures k <= |s|
    ensures forall i :: |s| - k <= i < |s| ==> IsWs(s[i])
    ensures k < |s| ==> !IsWs(s[|s| - k - 1])
  {
    if |s| > 0 && IsWs(s[|s| - 1]) then 1 + TrailingWs(s[..|s| - 1]) else 0
  }

  function Trim(s: string): (r: string)
    ensures |r| <= |s|
    ensures r != [] ==> !IsWs(r[0]) && !IsWs(r[|r| - 1])
    ensures forall c :: c in r ==> c in s
  {
    var rest := s[LeadingWs(s)..];
    rest[..|rest| - TrailingWs(rest)]
  }

  /** A text trims to nothing exactly when every character of it is whitespace. */
  lemma TrimBlank(s: string)
    ensures Trim(s) == "" <==> forall i :: 0 <= i < |s| ==> IsWs(s[i])
  {
    var a := LeadingWs(s);
    var rest := s[a..];
    if i :| 0 <= i < |s| && !IsWs(s[i]) {
      assert a <= i;
      var j := i - a;
      assert rest[j] == s[i];
      assert |rest| - TrailingWs(rest) > j;
    }
  }

  /** Trimming twice is trimming once. */
  lemma TrimIdempotent(s: string)
    ensures Trim(Trim(s)) == Trim(s)
  {
    var t := Trim(s);
    assert LeadingWs(t) == 0;
    assert TrailingWs(t) == 0;
  }

  /** A string without whitespace at either end is its own trim. */
  lemma TrimOfTrimmed(s: string)
    requires s != [] ==> !IsWs(s[0]) && !IsWs(s[|s| - 1])
    ensures Trim(s) == s
  {
    assert LeadingWs(s) == 0;
    assert s[0..] == s;
    assert TrailingWs(s) == 0;
  }

  // ---------------------------------------------------------------------
  // Case folding
  // ---------------------------------------------------------------------

  /** `toLowerCase` on one character, for ASCII and Latin-1 capitals. */
  function LowerChar(c: char): char {
    if 'A' <= c <= 'Z' || ('\U{00C0}' <= c <= '\U{00DE}' && c != '\U{00D7}')
    then (c as int + 32) as char
    else c
  }

  function Lower(s: string): (r: string)
    ensures |r| == |s|
    ensures forall i :: 0 <= i < |s| ==> r[i] == LowerChar(s[i])
  {
    if s == [] then [] else [LowerChar(s[0])] + Lower(s[1..])
  }

  /** Lower-casing a lower-cased string changes nothing. */
  lemma LowerIdempotent(s: string)
    ensures Lower(Lower(s)) == Lower(s)
  {
    var t := Lower(s);
    assert forall i :: 0 <= i < |t| ==> LowerChar(t[i]) == t[i];
  }

  // ---------------------------------------------------------------------
  // Substrings: indexOf, includes, split
  // ---------------------------------------------------------------------

  /** `sub` occurs in `s` starting at index `i`. */
  predicate OccursAt(s: string, sub: string, i: int) {
    0 <= i && i + |sub| <= |s| && s[i..i + |sub|] == sub
  }

  lemma OccursAtTail(s: string, sub: string, j: int)
    requires |s| > 0 && 0 <= j
    ensures OccursAt(s[1..], sub, j) <==> OccursAt(s, sub, j + 1)
  {
    if 0 <= j && j + |sub| <= |s| - 1 {
      assert s[1..][j..j + |sub|] == s[j + 1..j + 1 + |sub|];
    }
  }

  /** `String.prototype.indexOf`: the first index at which `sub` occurs. */
  function IndexOf(s: string, sub: string): (r: Option<nat>)
    ensures r.Some? ==> OccursAt(s, sub, r.value)
    ensures r.Some? ==> forall j :: 0 <= j < r.value ==> !OccursAt(s, sub, j)
    ensures r.None? ==> forall j :: !OccursAt(s, sub, j)
    decreases |s|
  {
    if sub <= s then
      assert s[0..|sub|] == sub;
      Some(0)
    else if |s| == 0 then None
    else
      var t := IndexOf(s[1..], sub);
      assert !OccursAt(s, sub, 0);
      forall j | 1 <= j ensures OccursAt(s, sub, j) <==> OccursAt(s[1..], sub, j - 1) {
        OccursAtTail(s, sub, j - 1);
      }
      match t
      case None => None
      case Some(k) => Some(k + 1)
  }

  /** `String.prototype.includes`. */
  predicate Includes(s: string, sub: string) {
    IndexOf(s, sub).Some?
  }

  lemma IncludesEmpty(s: string)
    ensures Includes(s, "")
  {
    assert "" <= s;
  }

  /** `String.prototype.split` with a non-empty separator. */
  function Split(s: string, sep: string): (r: seq<string>)
    requires |sep| > 0
    ensures |r| >= 1
    ensures forall i :: 0 <= i < |r| ==> |r[i]| <= |s|
    decreases |s|
  {
    match IndexOf(s, sep)
    case None => [s]
    case Some(i) => [s[..i]] + Split(s[i + |sep|..], sep)
  }

  /** `Array.prototype.join`, the inverse of Split. */
  function Join(parts: seq<string>, sep: string): string {
    if |parts| == 0 then ""
    else if |parts| == 1 then parts[0]
    else parts[0] + sep + Join(parts[1..], sep)
  }

  /** Splitting and joining again gives back the original text. */
  lemma {:induction false} SplitJoin(s: string, sep: string)
    requires |sep| > 0
    ensures Join(Split(s, sep), sep) == s
    decreases |s|
  {
    var r := IndexOf(s, sep);
    if r.Some? {
      var i := r.value;
      var rest := s[i + |sep|..];
      var parts := Split(rest, sep);
      assert Split(s, sep) == [s[..i]] + parts;
      SplitJoin(rest, sep);
      JoinCons(s[..i], parts, sep);
      CutAround(s, sep, i);
    }
  }

  lemma JoinCons(a: string, parts: seq<string>, sep: string)
    requires |parts| >= 1
    ensures Join([a] + parts, sep) == a + sep + Join(parts, sep)
  {
    assert ([a] + parts)[1..] == parts;
  }

  lemma CutAround(s: string, sub: string, i: nat)
    requires OccursAt(s, sub, i)
    ensures s == s[..i] + sub + s[i + |sub|..]
  {
    assert s == s[..i] + s[i..i + |sub|] + s[i + |sub|..];
  }

  /** The first occurrence of `sep` is right after a prefix that holds none of its first character. */
  lemma IndexOfAfterFreePrefix(a: string, sep: string, b: string)
    requires |sep| > 0 && sep[0] !in a
    ensures IndexOf(a + sep + b, sep) == Some(|a|)
  {
    var s := a + sep + b;
    assert s[|a|..|a| + |sep|] == sep;
    assert OccursAt(s, sep, |a|);
  }

  /** A text holding no first character of `sep` splits into itself alone. */
  lemma SplitWithoutSeparator(s: string, sep: string)
    requires |sep| > 0 && sep[0] !in s
    ensures Split(s, sep) == [s]
  {
  }

  /** No piece of a split contains the separator. */
  lemma {:induction false} SplitPiecesAvoidSeparator(s: string, sep: string)
    requires |sep| > 0
    ensures forall k :: 0 <= k < |Split(s, sep)| ==> !Includes(Split(s, sep)[k], sep)
    decreases |s|
  {
    match IndexOf(s, sep)
    case None =>
    case Some(i) =>
      SplitPiecesAvoidSeparator(s[i + |sep|..], sep);
      var head := s[..i];
      forall j | OccursAt(head, sep, j) ensures false {
        assert s[j..j + |sep|] == head[j..j + |sep|];
        assert OccursAt(s, sep, j);
      }
  }

  // ---------------------------------------------------------------------
  // Number parsing
  // ---------------------------------------------------------------------

  predicate IsDigit(c: char) {
    '0' as int <= c as int <= '9' as int
  }

  /** Length of the run of decimal digits at the start of `s`. */
  function DigitRun(s: string): (k: nat)
    ensures k <= |s|
    ensures forall i :: 0 <= i < k ==> IsDigit(s[i])
    ensures k < |s| ==> !IsDigit(s[k])
  {
    if |s| > 0 && IsDigit(s[0]) then 1 + DigitRun(s[1..]) else 0
  }

  /** The value of a string of decimal digits. */
  function DigitValue(c: char): (d: nat)
    requires IsDigit(c)
    ensures d <= 9
  {
    c as int - '0' as int
  }

  function DigitsValue(s: string): nat
    requires forall i :: 0 <= i < |s| ==> IsDigit(s[i])
  {
    if s == [] then 0 else DigitsValue(s[..|s| - 1]) * 10 + DigitValue(s[|s| - 1])
  }

  /** `String(n)` for a non-negative integer: its decimal digits, which read back as `n`. */
  function NatText(n: nat): (r: string)
    ensures |r| >= 1
    ensures forall i :: 0 <= i < |r| ==> IsDigit(r[i])
    ensures DigitsValue(r) == n
  {
    if n < 10 then [('0' as int + n) as char]
    else
      var prefix := NatText(n / 10);
      var r := prefix + [('0' as int + n % 10) as char];
      assert r[..|r| - 1] == prefix;
      r
  }

  /** The value of `c` as a digit of a base up to 36; 36 when it is no digit at all. */
  function DigitOf(c: char): (d: nat)
    ensures d <= 36
  {
    if IsDigit(c) then c as int - '0' as int
    else if 'a' <= c <= 'z' then c as int - 'a' as int + 10
    else if 'A' <= c <= 'Z' then c as int - 'A' as int + 10
    else 36
  }

  /** Length of the run of base-`radix` digits at the start of `s`. */
  function RadixRun(s: string, radix: nat): (k: nat)
    ensures k <= |s|
    ensures forall i :: 0 <= i < k ==> DigitOf(s[i]) < radix
    ensures k < |s| ==> DigitOf(s[k]) >= radix
  {
    if |s| > 0 && DigitOf(s[0]) < radix then 1 + RadixRun(s[1..], radix) else 0
  }

  /** The value of a string of base-`radix` digits. */
  function RadixValue(s: string, radix: nat): nat
    requires forall i :: 0 <= i < |s| ==> DigitOf(s[i]) < radix
  {
    if s == [] then 0
    else
      var prefix := s[..|s| - 1];
      assert forall i :: 0 <= i < |prefix| ==> prefix[i] == s[i];
      var v: nat := RadixValue(prefix, radix);
      var shifted: nat := v * radix;
      shifted + DigitOf(s[|s| - 1])
  }

  /** `0x` or `0X`, which `parseInt` with no radix reads as base 16. */
  predicate HexPrefixed(u: string) {
    |u| >= 2 && u[0] == '0' && (u[1] == 'x' || u[1] == 'X')
  }

  /**
   * `parseInt(s)` with no radix: leading whitespace, an optional sign, then
   * `0x`/`0X` and the longest run of hexadecimal digits, or else the longest
   * run of decimal digits; NaN when that run is empty.
   */
  function ParseIntText(s: string): (r: Field)
    ensures r.Int? || r.NaN?
  {
    var t := s[LeadingWs(s)..];
    var signed := |t| > 0 && (t[0] == '-' || t[0] == '+');
    match LeadingInteger(if signed then t[1..] else t)
    case None => NaN
    case Some(n) => Int(if signed && t[0] == '-' then -(n as int) else n)
  }

  /** The unsigned whole number at the start of `u`, in base 16 after `0x`, else in base 10. */
  function LeadingInteger(u: string): Option<nat> {
    if HexPrefixed(u) then
      var k := RadixRun(u[2..], 16);
      if k == 0 then None else Some(RadixValue(u[2..][..k], 16))
    else
      var k := DigitRun(u);
      if k == 0 then None else Some(DigitsValue(u[..k]))
  }

  /** `parseInt` on any field: numbers pass through, undefined gives NaN. */
  function ParseInt(f: Field): (r: Field)
    ensures r.Int? || r.NaN?
  {
    match f
    case Str(s) => ParseIntText(s)
    case Int(n) => Int(n)
    case NaN => NaN
    case Undef => NaN
  }

  /** `parseInt(f) || fallback`: NaN and 0 both give the fallback. */
  function ParseIntOr(f: Field, fallback: int): (r: int)
    ensures ParseInt(f).Int? && ParseInt(f).n != 0 ==> r == ParseInt(f).n
    ensures !(ParseInt(f).Int? && ParseInt(f).n != 0) ==> r == fallback
  {
    var p := ParseInt(f);
    if Truthy(p) then p.n else fallback
  }

  /** With no radix, a `0x` text is read in base 16: "0x10" is 16, not 0. */
  lemma {:induction false} ParseIntReadsHex(h: string)
    requires h != [] && forall i :: 0 <= i < |h| ==> DigitOf(h[i]) < 16
    ensures ParseInt(Str("0x" + h)) == Int(RadixValue(h, 16))
  {
    var s := "0x" + h;
    assert LeadingWs(s) == 0 by {
      assert !IsWs(s[0]);
    }
    assert s[0..] == s;
    HexLeadingInteger(h);
  }

  lemma {:induction false} HexLeadingInteger(h: string)
    requires h != [] && forall i :: 0 <= i < |h| ==> DigitOf(h[i]) < 16
    ensures LeadingInteger("0x" + h) == Some(RadixValue(h, 16))
  {
    var s := "0x" + h;
    assert HexPrefixed(s);
    assert s[2..] == h;
    AllRadixRun(h, 16);
    assert h[..|h|] == h;
  }

  lemma AllRadixRun(s: string, radix: nat)
    requires forall i :: 0 <= i < |s| ==> DigitOf(s[i]) < radix
    ensures RadixRun(s, radix) == |s|
  {
  }

  // ---------------------------------------------------------------------
  // Number
  // ---------------------------------------------------------------------

  /** The value `Number(...)` gives: a real number, a signed infinity, or NaN. */
  datatype Num = Real(x: real) | Infinite(negative: bool) | NotANumber

  function Pow10(n: nat): (p: nat)
    ensures p >= 1
  {
    if n == 0 then 1 else 10 * Pow10(n - 1)
  }

  /** `d × 10^e` for a whole mantissa `d`: never negative, and zero only for a zero mantissa. */
  function Scaled(d: nat, e: int): (x: real)
    ensures x >= 0.0
    ensures x == 0.0 <==> d == 0
  {
    if e >= 0 then
      var p := Pow10(e);
      assert d > 0 ==> d * p >= p;
      (d * p) as real
    else
      var p := Pow10(-e) as real;
      assert d > 0 ==> (d as real) / p > 0.0;
      (d as real) / p
  }

  /** The text after an exponent's `e`: an optional sign and at least one decimal digit. */
  function ExponentValue(s: string): Option<int> {
    var signed := |s| > 0 && (s[0] == '-' || s[0] == '+');
    var d := if signed then s[1..] else s;
    if d == [] || DigitRun(d) != |d| then None
    else if signed && s[0] == '-' then Some(-(DigitsValue(d) as int))
    else Some(DigitsValue(d))
  }

  /** The digits after a leading point, if `rest` starts with one. */
  function FractionDigits(rest: string): (f: string)
    ensures forall i :: 0 <= i < |f| ==> IsDigit(f[i])
  {
    if |rest| > 0 && rest[0] == '.' then rest[1..][..DigitRun(rest[1..])] else []
  }

  /** What follows the point and its digits, if `rest` starts with a point. */
  function AfterFraction(rest: string): string {
    if |rest| > 0 && rest[0] == '.' then rest[1..][DigitRun(rest[1..])..] else rest
  }

  /** An optional exponent part: nothing is exponent 0. */
  function ExponentPart(tail: string): Option<int> {
    if tail == [] then Some(0)
    else if tail[0] == 'e' || tail[0] == 'E' then ExponentValue(tail[1..])
    else None
  }

  /**
   * An unsigned decimal literal: digits, then an optional point and digits,
   * with at least one digit on either side, then an optional exponent.
   */
  function UnsignedDecimal(u: string): (r: Option<real>)
    ensures r.Some? ==> r.value >= 0.0
  {
    var k := DigitRun(u);
    var f := FractionDigits(u[k..]);
    var exp := ExponentPart(AfterFraction(u[k..]));
    if k + |f| == 0 || exp.None? then None
    else Some(Scaled(DigitsValue(u[..k] + f), exp.value - |f|))
  }

  /** The base of a `0x`, `0o` or `0b` prefix's letter; 0 for any other character. */
  function PrefixRadix(c: char): nat {
    if c == 'x' || c == 'X' then 16
    else if c == 'o' || c == 'O' then 8
    else if c == 'b' || c == 'B' then 2
    else 0
  }

  /**
   * `Number(t)` on a trimmed text: the empty text is 0; `0x`, `0o` and `0b`
   * take unsigned whole numbers in their base; otherwise an optional sign
   * and either `Infinity` or a decimal literal; anything else is NaN.
   */
  function TextToNumber(t: string): Num {
    if t == [] then Real(0.0)
    else if |t| >= 2 && t[0] == '0' && PrefixRadix(t[1]) > 0 then
      var v := t[2..];
      if v != [] && RadixRun(v, PrefixRadix(t[1])) == |v| then Real(RadixValue(v, PrefixRadix(t[1])) as real)
      else NotANumber
    else
      var signed := t[0] == '-' || t[0] == '+';
      var u := if signed then t[1..] else t;
      if u == "Infinity" then Infinite(t[0] == '-')
      else match UnsignedDecimal(u)
        case None => NotANumber
        case Some(x) => Real(if t[0] == '-' then -x else x)
  }

  /** `Number(f)`: numbers pass through, undefined is NaN, text is trimmed and then read. */
  function ToNumber(f: Field): (r: Num)
    ensures f.Int? ==> r == Real(f.n as real)
    ensures f.NaN? || f.Undef? ==> r.NotANumber?
  {
    match f
    case Int(n) => Real(n as real)
    case NaN => NotANumber
    case Undef => NotANumber
    case Str(s) => TextToNumber(Trim(s))
  }

  /** `f <= 0`: the loose comparison turns text into a number first, and NaN compares false. */
  predicate NotPositive(f: Field) {
    var n := ToNumber(f);
    (n.Real? && n.x <= 0.0) || n == Infinite(true)
  }

  /** On a plain run of digits, `parseInt` and `Number` agree. */
  lemma ParseIntAgreesWithNumber(s: string)
    requires s != [] && forall i :: 0 <= i < |s| ==> IsDigit(s[i])
    ensures ParseInt(Str(s)) == Int(DigitsValue(s))
    ensures ToNumber(Str(s)) == Real(DigitsValue(s) as real)
  {
    ParseIntOfDigits(s);
    NumberOfDigits(s);
  }

  lemma {:induction false} ParseIntOfDigits(s: string)
    requires s != [] && forall i :: 0 <= i < |s| ==> IsDigit(s[i])
    ensures ParseIntText(s) == Int(DigitsValue(s))
  {
    assert s[LeadingWs(s)..] == s by {
      DigitIsNotWs(s[0]);
      assert s[0..] == s;
    }
    assert LeadingInteger(s) == Some(DigitsValue(s)) by {
      if |s| >= 2 {
        DigitIsNotWs(s[1]);
      }
      AllDigitsRun(s);
      assert s[..|s|] == s;
    }
    DigitIsNotWs(s[0]);
  }

  lemma {:induction false} NumberOfDigits(s: string)
    requires s != [] && forall i :: 0 <= i < |s| ==> IsDigit(s[i])
    ensures ToNumber(Str(s)) == Real(DigitsValue(s) as real)
  {
    assert Trim(s) == s by {
      DigitIsNotWs(s[0]);
      DigitIsNotWs(s[|s| - 1]);
      TrimOfTrimmed(s);
    }
    UnsignedDecimalOfDigits(s);
    assert s != "Infinity" by {
      assert IsDigit(s[0]);
    }
    if |s| >= 2 {
      DigitIsNotWs(s[1]);
    }
    SignedDecimalText(false, s, DigitsValue(s) as real);
    assert "" + s == s;
  }

  lemma {:induction false} UnsignedDecimalOfDigits(s: string)
    requires s != [] && forall i :: 0 <= i < |s| ==> IsDigit(s[i])
    ensures UnsignedDecimal(s) == Some(DigitsValue(s) as real)
  {
    AllDigitsRun(s);
    var k := DigitRun(s);
    assert FractionDigits(s[k..]) == [] && AfterFraction(s[k..]) == [] by {
      assert s[k..] == [];
    }
    assert s[..k] + [] == s;
    ScaledByOne(DigitsValue(s));
  }

  lemma ScaledByOne(d: nat)
    ensures Scaled(d, 0) == d as real
  {
    assert Pow10(0) == 1;
  }

  lemma {:induction false} UnsignedDecimalWithPoint(a: string, b: string)
    requires |a| + |b| > 0
    requires forall i :: 0 <= i < |a| ==> IsDigit(a[i])
    requires forall i :: 0 <= i < |b| ==> IsDigit(b[i])
    ensures UnsignedDecimal(a + "." + b) == Some(Scaled(DigitsValue(a + b), -|b|))
  {
    var u := a + "." + b;
    DigitRunStopsAtPoint(a, b);
    assert u[|a|..] == "." + b;
    assert ("." + b)[1..] == b;
    AllDigitsRun(b);
    assert b[..|b|] == b && b[|b|..] == [];
    assert FractionDigits("." + b) == b;
    assert AfterFraction("." + b) == [];
    assert u[..|a|] == a;
  }

  /** A signed decimal text that is neither `Infinity` nor prefixed reads as its literal, signed. */
  lemma {:induction false} SignedDecimalText(negative: bool, u: string, x: real)
    requires u != [] && (IsDigit(u[0]) || u[0] == '.')
    requires u != "Infinity"
    requires !negative && |u| >= 2 && u[0] == '0' ==> PrefixRadix(u[1]) == 0
    requires UnsignedDecimal(u) == Some(x)
    ensures TextToNumber((if negative then "-" else "") + u) == Real(if negative then -x else x)
  {
    var t := (if negative then "-" else "") + u;
    assert t != [] && (t[0] == '-' <==> negative) && t[0] != '+';
    assert !(|t| >= 2 && t[0] == '0' && PrefixRadix(t[1]) > 0) by {
      if !negative {
        assert t == u;
      }
    }
    assert (if t[0] == '-' || t[0] == '+' then t[1..] else t) == u by {
      if negative {
        assert t[1..] == u;
      } else {
        assert t == u;
      }
    }
  }

  /**
   * A decimal text with a point, such as "-0.5" or "0.0", is at most 0
   * exactly when it is negative or all its digits are zero.
   */
  lemma {:induction false} DecimalNotPositive(negative: bool, a: string, b: string)
    requires |a| + |b| > 0
    requires forall i :: 0 <= i < |a| ==> IsDigit(a[i])
    requires forall i :: 0 <= i < |b| ==> IsDigit(b[i])
    ensures NotPositive(Str((if negative then "-" else "") + (a + "." + b))) <==> negative || DigitsValue(a + b) == 0
  {
    var u := a + "." + b;
    var t := (if negative then "-" else "") + u;
    var x := Scaled(DigitsValue(a + b), -|b|);
    assert ToNumber(Str(t)) == Real(if negative then -x else x) by {
      DecimalTextTrimmed(negative, a, b);
      UnsignedDecimalWithPoint(a, b);
      DecimalTextShape(a, b);
      SignedDecimalText(negative, u, x);
    }
  }

  lemma {:induction false} DecimalTextTrimmed(negative: bool, a: string, b: string)
    requires forall i :: 0 <= i < |a| ==> IsDigit(a[i])
    requires forall i :: 0 <= i < |b| ==> IsDigit(b[i])
    ensures Trim((if negative then "-" else "") + (a + "." + b)) == (if negative then "-" else "") + (a + "." + b)
  {
    var t := (if negative then "-" else "") + (a + "." + b);
    assert t[0] == (if negative then '-' else if |a| > 0 then a[0] else '.');
    assert t[|t| - 1] == (if |b| > 0 then b[|b| - 1] else '.');
    if !negative && |a| > 0 {
      DigitIsNotWs(a[0]);
    }
    if |b| > 0 {
      DigitIsNotWs(b[|b| - 1]);
    }
    TrimOfTrimmed(t);
  }

  lemma {:induction false} DecimalTextShape(a: string, b: string)
    requires forall i :: 0 <= i < |a| ==> IsDigit(a[i])
    ensures var u := a + "." + b;
            u != [] && (IsDigit(u[0]) || u[0] == '.') && u != "Infinity"
            && (|u| >= 2 && u[0] == '0' ==> PrefixRadix(u[1]) == 0)
  {
    var u := a + "." + b;
    assert u[0] == (if |a| > 0 then a[0] else '.');
    assert u != "Infinity" by {
      assert u[|a|] == '.';
    }
    if |u| >= 2 && u[0] == '0' {
      if |a| > 1 {
        assert u[1] == a[1];
        DigitIsNotWs(a[1]);
      } else {
        assert u[1] == '.';
      }
    }
  }

  lemma DigitRunStopsAtPoint(a: string, b: string)
    requires forall i :: 0 <= i < |a| ==> IsDigit(a[i])
    ensures DigitRun(a + "." + b) == |a|
  {
    if |a| > 0 {
      assert (a + "." + b)[1..] == a[1..] + "." + b;
      DigitRunStopsAtPoint(a[1..], b);
    }
  }

  lemma DigitIsNotWs(c: char)
    requires IsDigit(c)
    ensures !IsWs(c) && c != '-' && c != '+' && c != '.'
    ensures PrefixRadix(c) == 0
  {
  }

  lemma AllDigitsRun(s: string)
    requires forall i :: 0 <= i < |s| ==> IsDigit(s[i])
    ensures DigitRun(s) == |s|
  {
  }
}
