/**
 * The Python string operations that the application's decision rules use:
 * `str.upper()`, the substring test `sub in s`, `startswith`/`endswith`,
 * `sep.join(parts)`, `int(s)` and `str(n)` for integers.
 */
module Strings {
  import opened Wrappers

  /** `s.startswith(p)` */
  predicate StartsWith(s: string, p: string) {
    |p| <= |s| && s[..|p|] == p
  }

  /** `s.endswith(p)` */
  predicate EndsWith(s: string, p: string) {
    |p| <= |s| && s[|s| - |p|..] == p
  }

  /** A string ending with `o` ends with a suffix no longer than `o` exactly when `o` does. */
  lemma EndsWithThrough(s: string, o: string, suffix: string)
    requires EndsWith(s, o) && |suffix| <= |o|
    ensures EndsWith(s, suffix) <==> EndsWith(o, suffix)
  {
    assert s[|s| - |suffix|..] == o[|o| - |suffix|..];
  }

  /** `sub in s`: `sub` occurs somewhere in `s`. */
  predicate Contains(s: string, sub: string)
    decreases |s|
  {
    StartsWith(s, sub) || (|s| > 0 && Contains(s[1..], sub))
  }

  /** A string that contains `sub` contains each of its characters. */
  lemma {:induction false} ContainsChar(s: string, sub: string, k: nat)
    requires k < |sub| && Contains(s, sub)
    ensures sub[k] in s
    decreases |s|
  {
    if !StartsWith(s, sub) {
      ContainsChar(s[1..], sub, k);
      assert sub[k] in s[1..];
    } else {
      assert s[k] == sub[k];
    }
  }

  /**
   * `c.upper()` as far as it yields a single ASCII letter: the ASCII lower-case
   * letters, U+0131 (dotless i, upper-cased to `I`) and U+017F (long s,
   * upper-cased to `S`). Every other character is left as it is.
   */
  function UpperChar(c: char): char {
    if 'a' <= c <= 'z' then (c as int - 32) as char
    else if c == '\U{0131}' then 'I'
    else if c == '\U{017F}' then 'S'
    else c
  }

  /** `s.upper()`, character by character (see UpperChar). */
  function Upper(s: string): (r: string)
    ensures |r| == |s|
    ensures forall i | 0 <= i < |s| :: r[i] == UpperChar(s[i])
  {
    seq(|s|, i requires 0 <= i < |s| => UpperChar(s[i]))
  }

  /** `value.upper() in ['TRUE', 'FALSE']`: TRUE or FALSE in any letter case. */
  predicate IsBoolToken(value: string) {
    Upper(value) == "TRUE" || Upper(value) == "FALSE"
  }

  /** The spellings a user types are tokens; a word that merely starts like one is not. */
  lemma BoolTokenSpellings()
    ensures IsBoolToken("true") && IsBoolToken("True") && IsBoolToken("FALSE") && IsBoolToken("fAlSe")
    ensures !IsBoolToken("truth") && !IsBoolToken("t")
  {
    assert Upper("true") == "TRUE";
    assert Upper("True") == "TRUE";
    assert Upper("FALSE") == "FALSE";
    assert Upper("fAlSe") == "FALSE";
    assert Upper("truth")[3] == 'T';
  }

  /** `sep.join(parts)` */
  function Join(sep: string, parts: seq<string>): string {
    if |parts| == 0 then ""
    else if |parts| == 1 then parts[0]
    else Join(sep, parts[..|parts| - 1]) + sep + parts[|parts| - 1]
  }

  /** Joining one more part appends the separator and that part. */
  lemma JoinSnoc(sep: string, parts: seq<string>, last: string)
    requires |parts| > 0
    ensures Join(sep, parts + [last]) == Join(sep, parts) + sep + last
  {
    assert (parts + [last])[..|parts|] == parts;
  }

  lemma JoinTwo(sep: string, a: string, b: string)
    ensures Join(sep, [a, b]) == a + sep + b
  {
    JoinSnoc(sep, [a], b);
    assert [a] + [b] == [a, b];
  }

  predicate IsDigit(c: char) {
    '0' <= c <= '9'
  }

  function DigitValue(c: char): nat
    requires IsDigit(c)
  {
    c as int - '0' as int
  }

  function DigitChar(d: nat): (c: char)
    requires d < 10
    ensures IsDigit(c) && DigitValue(c) == d
  {
    ('0' as int + d) as char
  }

  /** The ASCII characters Python's `int()` skips around a number: space, tab, LF, VT, FF and CR. */
  predicate IsSpace(c: char) {
    c == ' ' || 9 <= c as int <= 13
  }

  function TrimStart(s: string): string
    decreases |s|
  {
    if |s| > 0 && IsSpace(s[0]) then TrimStart(s[1..]) else s
  }

  function TrimEnd(s: string): string
    decreases |s|
  {
    if |s| > 0 && IsSpace(s[|s| - 1]) then TrimEnd(s[..|s| - 1]) else s
  }

  function Strip(s: string): string {
    TrimEnd(TrimStart(s))
  }

  /** Decimal digits with single underscores between them, as `int()` accepts. */
  predicate IsDigitGroups(s: string) {
    && |s| > 0
    && IsDigit(s[0])
    && IsDigit(s[|s| - 1])
    && (forall i | 0 <= i < |s| :: IsDigit(s[i]) || s[i] == '_')
    && (forall i | 0 <= i < |s| - 1 :: !(s[i] == '_' && s[i + 1] == '_'))
  }

  /** How many decimal digits a string holds. */
  function DigitCount(s: string): (r: nat)
    ensures r <= |s|
  {
    if s == [] then 0 else DigitCount(s[..|s| - 1]) + (if IsDigit(s[|s| - 1]) then 1 else 0)
  }

  /** A string made only of digits has as many digits as characters. */
  lemma {:induction false} DigitCountOfDigits(s: string)
    requires forall i | 0 <= i < |s| :: IsDigit(s[i])
    ensures DigitCount(s) == |s|
  {
    if s != [] {
      DigitCountOfDigits(s[..|s| - 1]);
    }
  }

  /**
   * The most digits `int()` converts (`sys.get_int_max_str_digits()`, whose
   * default is 4300); a longer number raises ValueError.
   */
  const MaxIntDigits: nat := 4300

  /** The value of a run of digits, underscores ignored. */
  function GroupsValue(s: string): nat
    requires forall i | 0 <= i < |s| :: IsDigit(s[i]) || s[i] == '_'
  {
    if s == [] then 0
    else if s[|s| - 1] == '_' then GroupsValue(s[..|s| - 1])
    else GroupsValue(s[..|s| - 1]) * 10 + DigitValue(s[|s| - 1])
  }

  /**
   * `int(s)`: `Some(n)` where Python returns n and `None` where it raises
   * ValueError. Surrounding whitespace, one sign and single underscores between
   * digits are accepted, up to `MaxIntDigits` digits; digits and whitespace
   * outside ASCII are not modelled.
   */
  function ParseInt(s: string): (r: Option<int>)
    ensures r.Some? ==> |Strip(s)| > 0
  {
    var t := Strip(s);
    if |t| > 0 && (t[0] == '+' || t[0] == '-') then
      if IsDigitGroups(t[1..]) && DigitCount(t[1..]) <= MaxIntDigits then
        var v: int := GroupsValue(t[1..]);
        Some(if t[0] == '-' then -v else v)
      else None
    else if IsDigitGroups(t) && DigitCount(t) <= MaxIntDigits then Some(GroupsValue(t))
    else None
  }

  /** A number of more than `MaxIntDigits` digits is refused, however it is written. */
  lemma TooManyDigitsRejected(digits: string)
    requires |digits| > MaxIntDigits
    requires forall i | 0 <= i < |digits| :: IsDigit(digits[i])
    ensures ParseInt(digits) == None
    ensures ParseInt("-" + digits) == None
  {
    DigitCountOfDigits(digits);
    assert ("-" + digits)[1..] == digits;
    assert !IsSpace(digits[0]) && !IsSpace(digits[|digits| - 1]);
    assert Strip(digits) == digits;
    assert Strip("-" + digits) == "-" + digits by {
      var m := "-" + digits;
      assert !IsSpace(m[0]) && m[|m| - 1] == digits[|digits| - 1];
    }
  }

  /** `str(n)` for a non-negative integer: its decimal digits. */
  function NatToString(n: nat): (r: string)
    ensures |r| > 0
    ensures forall i | 0 <= i < |r| :: IsDigit(r[i])
  {
    if n < 10 then [DigitChar(n)] else NatToString(n / 10) + [DigitChar(n % 10)]
  }

  /** `str(n)` for an integer: a minus sign for negatives, then the digits. */
  function IntToString(n: int): (r: string)
    ensures |r| > 0
    ensures r[0] == '-' <==> n < 0
    ensures forall i | 0 < i < |r| :: IsDigit(r[i])
    ensures IsDigit(r[|r| - 1])
  {
    if n < 0 then "-" + NatToString(-n) else NatToString(n)
  }

  lemma {:induction false} NatToStringValue(n: nat)
    ensures GroupsValue(NatToString(n)) == n
  {
    if n >= 10 {
      var s := NatToString(n);
      assert s[..|s| - 1] == NatToString(n / 10);
      NatToStringValue(n / 10);
    }
  }

  /** An integer whose decimal form has at most `MaxIntDigits` digits. */
  predicate WithinDigitLimit(n: int) {
    |NatToString(if n < 0 then -n else n)| <= MaxIntDigits
  }

  /**
   * `int(str(n)) == n`: the parser reads back every integer the formatter
   * writes, as long as it is within the digit limit.
   */
  lemma ParseIntRoundTrip(n: int)
    requires WithinDigitLimit(n)
    ensures ParseInt(IntToString(n)) == Some(n)
  {
    var s := IntToString(n);
    var m := if n < 0 then -n else n;
    var d := NatToString(m);
    assert !IsSpace(s[0]) && !IsSpace(s[|s| - 1]);
    assert TrimStart(s) == s;
    assert Strip(s) == s;
    NatToStringValue(m);
    DigitCountOfDigits(d);
    if n < 0 {
      assert s[1..] == d;
    } else {
      assert s == d;
    }
  }

  /** `str` is injective on integers: the sign and the digits determine the value. */
  lemma IntToStringInjective(a: int, b: int)
    requires IntToString(a) == IntToString(b)
    ensures a == b
  {
    var ma, mb := if a < 0 then -a else a, if b < 0 then -b else b;
    NatToStringValue(ma);
    NatToStringValue(mb);
    if a < 0 {
      assert IntToString(a)[1..] == NatToString(ma);
      assert IntToString(b)[1..] == NatToString(mb);
    }
  }
}
