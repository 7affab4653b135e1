/** Values and string operations of JavaScript that the tracker's code relies on. */
module Common {

  datatype Option<T> = None | Some(value: T)

  /** The outcome of a call that may throw: its value, or the error it throws. */
  datatype Result<T> = Ok(value: T) | Err(message: string)

  /** A `Date` built from milliseconds since the epoch or from an ISO 8601 string. */
  datatype Instant = AtMs(ms: int) | AtIso(iso: string)

  /** A JavaScript value that may also be `undefined` or `null`. */
  datatype Js<T> = Undefined | Null | Val(value: T)

  /** JavaScript `a ?? b`: `a` unless it is `null` or `undefined`. */
  function Coalesce<T>(a: Js<T>, b: Js<T>): Js<T> {
    if a.Val? then a else b
  }

  /** JavaScript `a ?? d` when the fallback `d` is a plain value. */
  function OrElse<T>(a: Js<T>, d: T): T {
    if a.Val? then a.value else d
  }

  /** A destructured parameter `{ x = d }`: the default replaces `undefined` only, never `null`. */
  function WithDefault<T>(a: Js<T>, d: T): Js<T> {
    if a.Undefined? then Val(d) else a
  }

  /** `null` (and `undefined`) become `None`. */
  function ToOption<T>(a: Js<T>): Option<T> {
    if a.Val? then Some(a.value) else None
  }

  /** A stored optional value as a JSON object holds it: `None` is `null`. */
  function AsJs<T>(o: Option<T>): (r: Js<T>)
    ensures ToOption(r) == o && !r.Undefined?
  {
    if o.Some? then Val(o.value) else Null
  }

  /** Truthiness of a string value: `undefined`, `null` and `""` are falsy. */
  predicate TruthyString(a: Js<string>) {
    a.Val? && a.value != ""
  }

  /** `Math.max(x, y)` on integers. */
  function Max(x: int, y: int): int {
    if x >= y then x else y
  }

  // ---------------------------------------------------------------------
  // Whitespace and `String.prototype.trim`

  /** ECMAScript WhiteSpace and LineTerminator code points (the set `trim` and `\s` use). */
  predicate IsWhitespace(c: char) {
    c == '\t' || c == '\n' || c == '\U{000B}' || c == '\U{000C}' || c == '\r' || c == ' '
    || c == '\U{00A0}' || c == '\U{1680}' || ('\U{2000}' <= c <= '\U{200A}')
    || c == '\U{2028}' || c == '\U{2029}' || c == '\U{202F}' || c == '\U{205F}'
    || c == '\U{3000}' || c == '\U{FEFF}'
  }

  /** Leading whitespace removed. */
  function TrimStart(s: string): (r: string)
    ensures |r| <= |s|
  {
    if |s| > 0 && IsWhitespace(s[0]) then TrimStart(s[1..]) else s
  }

  /** Trailing whitespace removed. */
  function TrimEnd(s: string): (r: string)
    ensures |r| <= |s|
  {
    if |s| > 0 && IsWhitespace(s[|s| - 1]) then TrimEnd(s[..|s| - 1]) else s
  }

  /** `TrimStart` drops exactly the longest all-whitespace prefix. */
  lemma {:induction false} TrimStartSpec(s: string)
    ensures var r := TrimStart(s);
      r == s[|s| - |r|..] && (r == [] || !IsWhitespace(r[0])) && forall i :: 0 <= i < |s| - |r| ==> IsWhitespace(s[i])
  {
    if |s| > 0 && IsWhitespace(s[0]) {
      TrimStartSpec(s[1..]);
    }
  }

  /** `TrimEnd` drops exactly the longest all-whitespace suffix. */
  lemma {:induction false} TrimEndSpec(s: string)
    ensures var r := TrimEnd(s);
      r == s[..|r|] && (r == [] || !IsWhitespace(r[|r| - 1])) && forall i :: |r| <= i < |s| ==> IsWhitespace(s[i])
  {
    if |s| > 0 && IsWhitespace(s[|s| - 1]) {
      TrimEndSpec(s[..|s| - 1]);
    }
  }

  /** `s.trim()` */
  function Trim(s: string): string {
    TrimEnd(TrimStart(s))
  }

  predicate AllWhitespace(s: string) {
    forall i :: 0 <= i < |s| ==> IsWhitespace(s[i])
  }

  /** A string whose ends are not whitespace is its own trim. */
  lemma TrimOfTrimmed(t: string)
    requires t == [] || (!IsWhitespace(t[0]) && !IsWhitespace(t[|t| - 1]))
    ensures Trim(t) == t
  {
  }

  /** A trimmed string neither starts nor ends with whitespace, and trimming it again changes nothing. */
  lemma TrimIdempotent(s: string)
    ensures var t := Trim(s); (t == [] || (!IsWhitespace(t[0]) && !IsWhitespace(t[|t| - 1])))
    ensures Trim(Trim(s)) == Trim(s)
  {
    var a := TrimStart(s);
    TrimStartSpec(s);
    TrimEndSpec(a);
    var t := TrimEnd(a);
    if t != [] {
      assert t[0] == a[0];
    }
    TrimOfTrimmed(t);
  }

  /** `s.trim()` is empty exactly when every character of `s` is whitespace. */
  lemma TrimEmptyIffBlank(s: string)
    ensures Trim(s) == [] <==> AllWhitespace(s)
  {
    TrimStartSpec(s);
    TrimEndSpec(TrimStart(s));
  }

  // ---------------------------------------------------------------------
  // Case and substrings

  /** `toLowerCase` on one character (ASCII letters). */
  function LowerChar(c: char): char {
    if 'A' <= c <= 'Z' then (c as int + 32) as char else c
  }

  /**
   * `s.toLowerCase()` on ASCII letters: every character other than `A`-`Z` is kept,
   * and each capital becomes the small letter at the same place in the alphabet.
   */
  function ToLower(s: string): (r: string)
    ensures |r| == |s|
    ensures forall i :: 0 <= i < |s| && !('A' <= s[i] <= 'Z') ==> r[i] == s[i]
    ensures forall i :: 0 <= i < |s| && 'A' <= s[i] <= 'Z' ==>
      'a' <= r[i] <= 'z' && r[i] as int - 'a' as int == s[i] as int - 'A' as int
  {
    seq(|s|, i requires 0 <= i < |s| => LowerChar(s[i]))
  }

  lemma ToLowerIdempotent(s: string)
    ensures ToLower(ToLower(s)) == ToLower(s)
  {
  }

  /** Lower-casing never turns a whitespace character into a non-whitespace one or back. */
  lemma LowerKeepsWhitespace(c: char)
    ensures IsWhitespace(LowerChar(c)) == IsWhitespace(c)
  {
  }

  /** Lower-casing a trimmed string leaves it trimmed. */
  lemma TrimOfLower(t: string)
    requires Trim(t) == t
    ensures Trim(ToLower(t)) == ToLower(t)
  {
    TrimIdempotent(t);
    var u := ToLower(t);
    if u != [] {
      LowerKeepsWhitespace(t[0]);
      LowerKeepsWhitespace(t[|t| - 1]);
      TrimOfTrimmed(u);
    }
  }

  /** `s.trim().toLowerCase()` is a fixed point of itself. */
  lemma LowerTrimIdempotent(s: string)
    ensures var u := ToLower(Trim(s)); ToLower(Trim(u)) == u
  {
    TrimIdempotent(s);
    TrimOfLower(Trim(s));
    ToLowerIdempotent(Trim(s));
  }

  /** `category.trim().toLowerCase()`, the normal form of a category. */
  function NormalizeCategory(category: string): (r: string)
    ensures Trim(r) == r && ToLower(r) == r && ToLower(Trim(r)) == r
  {
    TrimIdempotent(category);
    TrimOfLower(Trim(category));
    ToLowerIdempotent(Trim(category));
    ToLower(Trim(category))
  }

  /** `s.startsWith(p)` */
  predicate StartsWith(s: string, p: string) {
    |p| <= |s| && s[..|p|] == p
  }

  /** `s.includes(sub)` */
  predicate Contains(s: string, sub: string) {
    exists i | 0 <= i <= |s| - |sub| :: OccursAt(s, sub, i)
  }

  predicate OccursAt(s: string, sub: string, i: int) {
    0 <= i <= |s| - |sub| && s[i..i + |sub|] == sub
  }

  // ---------------------------------------------------------------------
  // Decimal numerals

  predicate IsDigit(c: char) {
    '0' <= c <= '9'
  }

  function DigitChar(d: int): char
    requires 0 <= d < 10
  {
    ('0' as int + d) as char
  }

  function DigitValue(c: char): int
    requires IsDigit(c)
  {
    c as int - '0' as int
  }

  /** `String(n)` for a non-negative integer. */
  function NatToString(n: nat): (r: string)
    ensures |r| >= 1
    ensures forall i :: 0 <= i < |r| ==> IsDigit(r[i])
  {
    if n < 10 then [DigitChar(n)] else NatToString(n / 10) + [DigitChar(n % 10)]
  }

  /** `String(i)` for any integer. */
  function IntToString(i: int): string {
    if i < 0 then "-" + NatToString(-i) else NatToString(i)
  }

  /** The value of a string of decimal digits (`parseInt(s, 10)` on such a string). */
  function DigitsValue(s: string): nat
    requires forall i :: 0 <= i < |s| ==> IsDigit(s[i])
  {
    if s == [] then 0 else DigitsValue(s[..|s| - 1]) * 10 + DigitValue(s[|s| - 1])
  }

  /** The decimal numeral reads back as the number it was written from. */
  lemma {:induction false} DigitsValueOfNatToString(n: nat)
    ensures DigitsValue(NatToString(n)) == n
  {
    var r := NatToString(n);
    if n >= 10 {
      DigitsValueOfNatToString(n / 10);
      assert r[..|r| - 1] == NatToString(n / 10);
    }
  }

  /** A leading zero does not change the value of a numeral. */
  lemma {:induction false} DigitsValueLeadingZero(s: string)
    requires forall i :: 0 <= i < |s| ==> IsDigit(s[i])
    ensures DigitsValue("0" + s) == DigitsValue(s)
  {
    if s != [] {
      var t := "0" + s;
      assert t[..|t| - 1] == "0" + s[..|s| - 1];
      DigitsValueLeadingZero(s[..|s| - 1]);
    } else {
      assert ("0" + s)[..0] == [];
    }
  }

  /** `String(s).padStart(2, "0")` */
  function Pad2(s: string): (r: string)
    ensures |r| >= 2
    ensures |s| >= 2 ==> r == s
    ensures |s| < 2 ==> |r| == 2 && r[2 - |s|..] == s && forall i :: 0 <= i < 2 - |s| ==> r[i] == '0'
  {
    if |s| >= 2 then s else if |s| == 1 then "0" + s else "00"
  }

  /** A zero-padded numeral still reads back as its number. */
  lemma Pad2Value(n: nat)
    ensures var p := Pad2(NatToString(n));
      (forall i :: 0 <= i < |p| ==> IsDigit(p[i])) && DigitsValue(p) == n
  {
    var d := NatToString(n);
    DigitsValueOfNatToString(n);
    if |d| < 2 {
      assert Pad2(d) == "0" + d;
      DigitsValueLeadingZero(d);
    }
  }

  // ---------------------------------------------------------------------
  // Sequence facts the filter lemmas share

  /** A non-empty list is its head followed by its tail, also in front of another list. */
  lemma HeadTail<T>(a: seq<T>, b: seq<T>)
    requires a != []
    ensures a == [a[0]] + a[1..] && a + b == [a[0]] + (a[1..] + b)
  {
  }

  lemma AppendAssoc<T>(x: seq<T>, y: seq<T>, z: seq<T>)
    ensures x + (y + z) == (x + y) + z
  {
  }
}
