/** The JavaScript string built-ins the application relies on
    (`includes`, `endsWith`, `trim`, `toLowerCase`, `parseInt`), over
    `seq<char>`. */
module JsText {
  import opened Wrappers

  /** `sub` occurs in `s` starting at index `i`. */
  predicate OccursAt(s: string, sub: string, i: int) {
    0 <= i && i + |sub| <= |s| && s[i..i + |sub|] == sub
  }

  predicate StartsWith(s: string, prefix: string) {
    |prefix| <= |s| && s[..|prefix|] == prefix
  }

  /** `s.includes(sub)`. */
  function Contains(s: string, sub: string): (r: bool)
    ensures r <==> exists i :: OccursAt(s, sub, i)
    decreases |s|
  {
    if StartsWith(s, sub) then
      assert OccursAt(s, sub, 0);
      true
    else if |s| == 0 then
      assert forall i :: !OccursAt(s, sub, i);
      false
    else
      var rest := Contains(s[1..], sub);
      assert forall i :: OccursAt(s[1..], sub, i) <==> OccursAt(s, sub, i + 1) by {
        forall i ensures OccursAt(s[1..], sub, i) <==> OccursAt(s, sub, i + 1) {
          if 0 <= i && i + 1 + |sub| <= |s| {
            assert s[1..][i..i + |sub|] == s[i + 1..i + 1 + |sub|];
          }
        }
      }
      assert !OccursAt(s, sub, 0);
      assert forall i :: OccursAt(s, sub, i) ==> OccursAt(s[1..], sub, i - 1);
      rest
  }

  /** `s.endsWith(suffix)`. */
  predicate EndsWith(s: string, suffix: string) {
    |suffix| <= |s| && s[|s| - |suffix|..] == suffix
  }

  /** A string ends with whatever was appended last. */
  lemma EndsWithAppend(prefix: string, suffix: string)
    ensures EndsWith(prefix + suffix, suffix)
  {
    assert (prefix + suffix)[|prefix|..] == suffix;
  }

  /** Text found in a part is found in the whole. */
  lemma ContainsInAppend(a: string, b: string, sub: string)
    requires Contains(b, sub)
    ensures Contains(a + b, sub)
  {
    var i :| OccursAt(b, sub, i);
    assert (a + b)[|a| + i..|a| + i + |sub|] == b[i..i + |sub|];
    assert OccursAt(a + b, sub, |a| + i);
  }

  lemma ContainsInPrepend(a: string, b: string, sub: string)
    requires Contains(a, sub)
    ensures Contains(a + b, sub)
  {
    var i :| OccursAt(a, sub, i);
    assert (a + b)[i..i + |sub|] == a[i..i + |sub|];
    assert OccursAt(a + b, sub, i);
  }

  /** A string that contains `a + b` contains `a`: a longer needle matches
      fewer haystacks. */
  lemma ContainsShorterNeedle(s: string, a: string, b: string)
    requires Contains(s, a + b)
    ensures Contains(s, a)
  {
    var i :| OccursAt(s, a + b, i);
    assert s[i..i + |a|] == (a + b)[..|a|] == a;
    assert OccursAt(s, a, i);
  }

  /** The characters `String.prototype.trim` removes (the Unicode space
      separators beyond U+00A0 are not listed). */
  predicate IsWhitespace(c: char) {
    c == ' ' || c == '\t' || c == '\n' || c == '\r' || c == '\U{B}' || c == '\U{C}'
    || c == '\U{A0}' || c == '\U{FEFF}' || c == '\U{2028}' || c == '\U{2029}'
  }

  function TrimStart(s: string): (r: string)
    ensures |r| <= |s| && r == s[|s| - |r|..]
    ensures r == [] || !IsWhitespace(r[0])
    ensures forall k :: 0 <= k < |s| - |r| ==> IsWhitespace(s[k])
  {
    if |s| > 0 && IsWhitespace(s[0]) then TrimStart(s[1..]) else s
  }

  function TrimEnd(s: string): (r: string)
    ensures |r| <= |s| && r == s[..|r|]
    ensures r == [] || !IsWhitespace(r[|r| - 1])
    ensures forall k :: |r| <= k < |s| ==> IsWhitespace(s[k])
  {
    if |s| > 0 && IsWhitespace(s[|s| - 1]) then TrimEnd(s[..|s| - 1]) else s
  }

  /** `r` is the run of `s` starting at index `i`, with nothing but
      whitespace before and after it. */
  predicate Framed(s: string, r: string, i: int) {
    && 0 <= i <= |s| - |r|
    && (forall k :: 0 <= k < |r| ==> r[k] == s[i + k])
    && (forall k :: 0 <= k < i ==> IsWhitespace(s[k]))
    && (forall k :: i + |r| <= k < |s| ==> IsWhitespace(s[k]))
  }

  /** `s.trim()`: the result neither starts nor ends with whitespace, and it
      is empty exactly when `s` is all whitespace. */
  function Trim(s: string): (r: string)
    ensures |r| <= |s|
    ensures r != [] ==> !IsWhitespace(r[0]) && !IsWhitespace(r[|r| - 1])
    ensures r == [] <==> forall k :: 0 <= k < |s| ==> IsWhitespace(s[k])
  {
    var t := TrimStart(s);
    var r := TrimEnd(t);
    assert r != [] ==> r[0] == t[0];
    assert r == [] ==> t == [];
    r
  }

  /** `s.trim()` is the run of `s` between its leading and its trailing
      whitespace. */
  lemma TrimIsMiddle(s: string)
    ensures exists i :: Framed(s, Trim(s), i)
  {
    var t := TrimStart(s);
    assert Trim(s) == TrimEnd(t);
    TrimFramed(s, t, Trim(s));
    assert Framed(s, Trim(s), |s| - |t|);
  }

  /** A whitespace-led suffix `t` of `s`, cut down to a prefix `r` followed
      only by whitespace, leaves `r` framed in `s`. */
  lemma TrimFramed(s: string, t: string, r: string)
    requires |t| <= |s| && t == s[|s| - |t|..]
    requires |r| <= |t| && r == t[..|r|]
    requires forall k :: 0 <= k < |s| - |t| ==> IsWhitespace(s[k])
    requires forall k :: |r| <= k < |t| ==> IsWhitespace(t[k])
    ensures Framed(s, r, |s| - |t|)
  {
    var i := |s| - |t|;
    forall k | 0 <= k < |r| ensures r[k] == s[i + k] {
      assert r[k] == t[k];
    }
    forall k | i + |r| <= k < |s| ensures IsWhitespace(s[k]) {
      assert s[k] == t[k - i];
    }
  }

  /** `toLowerCase` on one character; only ASCII letters are folded. */
  function ToLowerChar(c: char): char {
    if 'A' <= c <= 'Z' then (c as int + 32) as char else c
  }

  function ToLower(s: string): (r: string)
    ensures |r| == |s|
    ensures forall k :: 0 <= k < |s| ==> r[k] == ToLowerChar(s[k])
  {
    seq(|s|, k requires 0 <= k < |s| => ToLowerChar(s[k]))
  }

  /** Lower-casing works character by character, so it distributes over
      concatenation. */
  lemma ToLowerAppend(a: string, b: string)
    ensures ToLower(a + b) == ToLower(a) + ToLower(b)
  {
  }

  /** Lower-casing twice is lower-casing once. */
  lemma ToLowerIdempotent(s: string)
    ensures ToLower(ToLower(s)) == ToLower(s)
  {
  }

  predicate IsDigit(c: char) {
    '0' <= c <= '9'
  }

  /** The longest prefix of `s` made of decimal digits. */
  function DigitPrefix(s: string): (d: string)
    ensures |d| <= |s| && d == s[..|d|]
    ensures forall k :: 0 <= k < |d| ==> IsDigit(d[k])
    ensures |d| < |s| ==> !IsDigit(s[|d|])
  {
    if |s| > 0 && IsDigit(s[0]) then [s[0]] + DigitPrefix(s[1..]) else []
  }

  /** The value of a string of decimal digits, most significant first. */
  function DigitsValue(d: string): (v: nat)
    requires forall k :: 0 <= k < |d| ==> IsDigit(d[k])
  {
    if d == [] then 0
    else
      assert IsDigit(d[|d| - 1]);
      DigitsValue(d[..|d| - 1]) * 10 + (d[|d| - 1] as int - '0' as int)
  }

  /** The decimal representation of `n`, without leading zeros. */
  function Decimal(n: nat): (s: string)
    ensures |s| > 0 && forall k :: 0 <= k < |s| ==> IsDigit(s[k])
  {
    var last := ('0' as int + n % 10) as char;
    if n < 10 then [last] else Decimal(n / 10) + [last]
  }

  /** `parseInt(s)` in base 10: leading whitespace, an optional sign, then the
      longest run of digits; `None` stands for `NaN`. */
  function ParseInt(s: string): (r: Option<int>)
    ensures r.None? <==> DigitPrefix(Unsigned(TrimStart(s))) == []
    ensures r.Some? ==>
      var t := TrimStart(s);
      var v := DigitsValue(DigitPrefix(Unsigned(t)));
      && (|t| > 0 && t[0] == '-' ==> r.value == -(v as int))
      && (|t| == 0 || t[0] != '-' ==> r.value == v)
  {
    var t := TrimStart(s);
    var d := DigitPrefix(Unsigned(t));
    if d == [] then None
    else if |t| > 0 && t[0] == '-' then Some(-(DigitsValue(d) as int))
    else Some(DigitsValue(d))
  }

  /** `t` without its leading sign, if it has one. */
  function Unsigned(t: string): string {
    if |t| > 0 && (t[0] == '-' || t[0] == '+') then t[1..] else t
  }

  lemma {:induction false} DigitsValueOfDecimal(n: nat)
    ensures DigitsValue(Decimal(n)) == n
  {
    var s := Decimal(n);
    if n >= 10 {
      DigitsValueOfDecimal(n / 10);
      assert s[..|s| - 1] == Decimal(n / 10);
    }
  }

  lemma {:induction false} DigitPrefixOfDigits(d: string, rest: string)
    requires forall k :: 0 <= k < |d| ==> IsDigit(d[k])
    requires rest == [] || !IsDigit(rest[0])
    ensures DigitPrefix(d + rest) == d
  {
    if d != [] {
      assert (d + rest)[1..] == d[1..] + rest;
      DigitPrefixOfDigits(d[1..], rest);
    } else {
      assert d + rest == rest;
    }
  }

  /** Once the sign and the whitespace are gone, `parseInt` is the value of
      the digit run. */
  lemma ParseIntUnsigned(m: string, d: string)
    requires m != [] && IsDigit(m[0])
    requires DigitPrefix(m) == d
    ensures ParseInt(m) == Some(DigitsValue(d))
  {
    assert !IsWhitespace(m[0]);
    assert TrimStart(m) == m;
    assert Unsigned(m) == m;
  }

  /** `parseInt` reads back the decimal form of a number, stopping at the first
      character that is not a digit (so `parseInt("1/8")` is 1). */
  lemma ParseIntOfDecimal(n: nat, rest: string)
    requires rest == [] || !IsDigit(rest[0])
    ensures ParseInt(Decimal(n) + rest) == Some(n)
  {
    var d := Decimal(n);
    DigitPrefixOfDigits(d, rest);
    DigitsValueOfDecimal(n);
    assert (d + rest)[0] == d[0];
    ParseIntUnsigned(d + rest, d);
  }

  /** The same, after a minus sign. */
  lemma ParseIntOfNegativeDecimal(n: nat, rest: string)
    requires rest == [] || !IsDigit(rest[0])
    ensures ParseInt("-" + Decimal(n) + rest) == Some(-(n as int))
  {
    var d := Decimal(n);
    var u := d + rest;
    var m := "-" + u;
    assert m == "-" + d + rest;
    DigitPrefixOfDigits(d, rest);
    DigitsValueOfDecimal(n);
    assert !IsWhitespace(m[0]);
    assert TrimStart(m) == m;
    assert m[1..] == u;
    assert Unsigned(m) == u;
  }

  /** A string without digits (after whitespace and sign) is not a number. */
  lemma ParseIntOfNonNumber(s: string)
    requires s != [] && !IsDigit(s[0]) && !IsWhitespace(s[0]) && s[0] != '-' && s[0] != '+'
    ensures ParseInt(s) == None
  {
  }
}
