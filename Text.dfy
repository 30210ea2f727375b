/**
 * The handful of Python `str` operations the bot relies on, written out over
 * `seq<char>`: whitespace, `strip`, `split(",")`, `"\n".join`, `startswith`,
 * `str(int)` and `int(str)`.
 */
module Text {
  import opened Wrappers

  /** Python's `str.isspace()`, which is also what `\s` matches in a `str` pattern. */
  predicate IsSpace(c: char) {
    || ('\t' <= c <= '\r')
    || ('\U{1C}' <= c <= '\U{1F}')
    || c == ' '
    || c == '\U{85}'
    || c == '\U{A0}'
    || c == '\U{1680}'
    || ('\U{2000}' <= c <= '\U{200A}')
    || c == '\U{2028}'
    || c == '\U{2029}'
    || c == '\U{202F}'
    || c == '\U{205F}'
    || c == '\U{3000}'
  }

  /** Every character of `s[a..b]` is whitespace. */
  predicate SpaceBetween(s: string, a: int, b: int)
    requires 0 <= a && b <= |s|
  {
    forall i | a <= i < b :: IsSpace(s[i])
  }

  predicate AllSpace(s: string) {
    SpaceBetween(s, 0, |s|)
  }

  /** The first index at or after `i` that does not hold whitespace (or `|s|`). */
  function SkipSpaces(s: string, i: nat): (k: nat)
    requires i <= |s|
    ensures i <= k <= |s| && SpaceBetween(s, i, k)
    ensures k < |s| ==> !IsSpace(s[k])
    decreases |s| - i
  {
    if i < |s| && IsSpace(s[i]) then SkipSpaces(s, i + 1) else i
  }

  /** The start of the whitespace run that ends at index `j`. */
  function BackOverSpaces(s: string, j: nat): (k: nat)
    requires j <= |s|
    ensures k <= j && SpaceBetween(s, k, j)
    ensures k > 0 ==> !IsSpace(s[k - 1])
  {
    if j > 0 && IsSpace(s[j - 1]) then BackOverSpaces(s, j - 1) else j
  }

  /** `r` is `s` with the whitespace `s[..a]` and `s[a + |r|..]` removed. */
  ghost predicate StrippedAt(s: string, r: string, a: int) {
    && 0 <= a <= |s| - |r|
    && s[a..a + |r|] == r
    && SpaceBetween(s, 0, a)
    && SpaceBetween(s, a + |r|, |s|)
  }

  /**
   * `str.strip()`: the result neither begins nor ends with whitespace, and it
   * is empty exactly when `s` is all whitespace (`StripTrims` states what it
   * removes).
   */
  function Strip(s: string): (r: string)
    ensures r == "" <==> AllSpace(s)
    ensures r != "" ==> !IsSpace(r[0]) && !IsSpace(r[|r| - 1])
  {
    var a := SkipSpaces(s, 0);
    if a == |s| then "" else s[a..BackOverSpaces(s, |s|)]
  }

  /** `strip()` keeps the part of `s` between a whitespace prefix and a whitespace suffix. */
  lemma StripTrims(s: string)
    ensures exists a :: StrippedAt(s, Strip(s), a)
  {
    var a := SkipSpaces(s, 0);
    var b := BackOverSpaces(s, |s|);
    if a == |s| {
      assert Strip(s) == "";
      assert StrippedAt(s, "", a);
    } else {
      assert a < b;
      assert Strip(s) == s[a..b];
      assert StrippedAt(s, s[a..b], a);
    }
  }

  /** A string that does not begin or end with whitespace is its own `strip()`. */
  lemma StripKeeps(s: string)
    requires s == "" || (!IsSpace(s[0]) && !IsSpace(s[|s| - 1]))
    ensures Strip(s) == s
  {
  }

  /** `s.startswith(p)`. */
  predicate StartsWith(s: string, p: string) {
    |p| <= |s| && s[..|p|] == p
  }

  /** `w in s` for strings: `w` occurs in `s` as a contiguous piece. */
  ghost predicate IsInfix(w: string, s: string) {
    exists k :: InfixAt(w, s, k)
  }

  ghost predicate InfixAt(w: string, s: string, k: int) {
    0 <= k <= |s| - |w| && s[k..k + |w|] == w
  }

  lemma InfixOfConcat(a: string, w: string, b: string)
    ensures IsInfix(w, a + w + b)
  {
    assert InfixAt(w, a + w + b, |a|) by {
      assert (a + w + b)[|a|..|a| + |w|] == w;
    }
  }

  lemma {:induction false} InfixTransitive(u: string, v: string, s: string)
    requires IsInfix(u, v) && IsInfix(v, s)
    ensures IsInfix(u, s)
  {
    var i :| InfixAt(u, v, i);
    var j :| InfixAt(v, s, j);
    forall k | 0 <= k < |u| ensures s[j + i + k] == u[k] {
      assert u[k] == v[i + k] == s[j + i + k];
    }
    assert s[j + i..j + i + |u|] == u;
    assert InfixAt(u, s, j + i);
  }

  /** `c * n` for a one-character string `c`. */
  function Repeat(c: char, n: nat): string {
    seq(n, _ => c)
  }

  /** `sep.join(parts)`. */
  function Join(parts: seq<string>, sep: string): string
    decreases |parts|
  {
    if |parts| == 0 then ""
    else if |parts| == 1 then parts[0]
    else parts[0] + sep + Join(parts[1..], sep)
  }

  /** Every joined part occurs in the joined string. */
  lemma {:induction false} JoinContains(parts: seq<string>, sep: string, k: nat)
    requires k < |parts|
    ensures IsInfix(parts[k], Join(parts, sep))
    decreases |parts|
  {
    if |parts| == 1 {
      InfixOfConcat("", parts[0], "");
      assert "" + parts[0] + "" == parts[0];
    } else if k == 0 {
      InfixOfConcat("", parts[0], sep + Join(parts[1..], sep));
      assert Join(parts, sep) == "" + parts[0] + (sep + Join(parts[1..], sep));
    } else {
      JoinContains(parts[1..], sep, k - 1);
      InfixOfConcat(parts[0] + sep, Join(parts[1..], sep), "");
      assert Join(parts, sep) == (parts[0] + sep) + Join(parts[1..], sep) + "";
      InfixTransitive(parts[k], Join(parts[1..], sep), Join(parts, sep));
    }
  }

  /** The index of the first `c` in `s`. */
  function IndexOf(s: string, c: char): (i: nat)
    requires c in s
    ensures i < |s| && s[i] == c && c !in s[..i]
  {
    if s[0] == c then 0 else 1 + IndexOf(s[1..], c)
  }

  /**
   * `s.split(c)` for a one-character separator: the pieces between the
   * occurrences of `c`, so there is one more piece than there are `c`s, no
   * piece contains `c`, and joining the pieces with `c` gives `s` back.
   */
  function Split(s: string, c: char): (parts: seq<string>)
    ensures |parts| >= 1
    ensures forall k | 0 <= k < |parts| :: c !in parts[k]
    ensures Join(parts, [c]) == s
    decreases |s|
  {
    if c !in s then [s]
    else
      var i := IndexOf(s, c);
      var rest := Split(s[i + 1..], c);
      assert s == s[..i] + [c] + s[i + 1..];
      [s[..i]] + rest
  }

  predicate IsDigit(c: char) {
    '0' <= c <= '9'
  }

  function DigitChar(d: nat): (c: char)
    requires d < 10
    ensures IsDigit(c)
  {
    (48 + d) as char
  }

  function DigitValue(c: char): nat
    requires IsDigit(c)
  {
    c as int - 48
  }

  /** `str(n)` for a natural number: its decimal digits, most significant first. */
  function NatToString(n: nat): (r: string)
    ensures |r| >= 1 && forall i | 0 <= i < |r| :: IsDigit(r[i])
    decreases n
  {
    if n < 10 then [DigitChar(n)] else NatToString(n / 10) + [DigitChar(n % 10)]
  }

  /** `str(x)` for any integer. */
  function IntToString(x: int): string {
    if x < 0 then "-" + NatToString(-x) else NatToString(x)
  }

  /** The number a run of decimal digits spells. */
  function DigitsValue(ds: string): nat
    requires forall i | 0 <= i < |ds| :: IsDigit(ds[i])
  {
    if |ds| == 0 then 0 else DigitsValue(ds[..|ds| - 1]) * 10 + DigitValue(ds[|ds| - 1])
  }

  /**
   * The digit part that `int()` accepts: decimal digits and `_`, beginning
   * and ending with a digit, with no two `_` side by side (so each `_`
   * stands alone between two digits).
   */
  predicate IsDigitGroups(s: string) {
    && |s| > 0
    && IsDigit(s[0])
    && IsDigit(s[|s| - 1])
    && (forall i | 0 <= i < |s| :: IsDigit(s[i]) || s[i] == '_')
    && (forall i, j | 0 <= i < |s| && 0 <= j < |s| && j == i + 1 :: IsDigit(s[i]) || IsDigit(s[j]))
  }

  function DropUnderscores(s: string): (r: string)
    requires forall i | 0 <= i < |s| :: IsDigit(s[i]) || s[i] == '_'
    ensures forall i | 0 <= i < |r| :: IsDigit(r[i])
    ensures (forall i | 0 <= i < |s| :: IsDigit(s[i])) ==> r == s
  {
    if |s| == 0 then ""
    else (if s[0] == '_' then "" else [s[0]]) + DropUnderscores(s[1..])
  }

  /** The digit groups read as a number, or `None` when they are not digit groups. */
  function DigitGroupsValue(body: string): Option<nat> {
    if IsDigitGroups(body) then Some(DigitsValue(DropUnderscores(body))) else None
  }

  /** A stripped `int()` argument: an optional sign, then digit groups. */
  function SignedValue(t: string): Option<int> {
    if |t| > 0 && (t[0] == '-' || t[0] == '+') then
      match DigitGroupsValue(t[1..])
      case None => None
      case Some(v) => Some(if t[0] == '-' then -(v as int) else v as int)
    else
      match DigitGroupsValue(t)
      case None => None
      case Some(v) => Some(v)
  }

  /**
   * `int(s)` in base 10: surrounding whitespace, then an optional sign, then
   * digit groups; anything else raises `ValueError` (here `None`).
   */
  function ParseInt(s: string): Option<int> {
    SignedValue(Strip(s))
  }

  lemma {:induction false} DigitsValueOfNatToString(n: nat)
    ensures DigitsValue(NatToString(n)) == n
    decreases n
  {
    var r := NatToString(n);
    if n >= 10 {
      DigitsValueOfNatToString(n / 10);
      assert r[..|r| - 1] == NatToString(n / 10);
    }
  }

  /** Plain decimal digits are digit groups, and read as the number they spell. */
  lemma DigitsAreGroups(digits: string)
    requires |digits| >= 1 && forall i | 0 <= i < |digits| :: IsDigit(digits[i])
    ensures DigitGroupsValue(digits) == Some(DigitsValue(digits))
  {
    assert IsDigitGroups(digits);
    assert DropUnderscores(digits) == digits;
  }

  lemma NoDigitIsSpace(c: char)
    requires IsDigit(c) || c == '-'
    ensures !IsSpace(c)
  {
  }

  /** `int()` of decimal digits. */
  lemma ParseIntOfDigits(digits: string)
    requires |digits| >= 1 && forall i | 0 <= i < |digits| :: IsDigit(digits[i])
    ensures ParseInt(digits) == Some(DigitsValue(digits) as int)
  {
    StripDigits(digits);
    UnsignedValue(digits);
    DigitsAreGroups(digits);
  }

  lemma StripDigits(digits: string)
    requires |digits| >= 1 && IsDigit(digits[0]) && IsDigit(digits[|digits| - 1])
    ensures Strip(digits) == digits
  {
    NoDigitIsSpace(digits[0]);
    NoDigitIsSpace(digits[|digits| - 1]);
    StripKeeps(digits);
  }

  lemma UnsignedValue(t: string)
    requires |t| >= 1 && IsDigit(t[0])
    ensures SignedValue(t) == match DigitGroupsValue(t) case None => None case Some(v) => Some(v as int)
  {
  }

  lemma StripNegated(s: string, digits: string)
    requires |digits| >= 1 && IsDigit(digits[|digits| - 1])
    requires s == "-" + digits
    ensures Strip(s) == s && s[0] == '-' && s[1..] == digits
  {
    assert s[|s| - 1] == digits[|digits| - 1];
    NoDigitIsSpace(s[0]);
    NoDigitIsSpace(s[|s| - 1]);
    StripKeeps(s);
  }

  lemma NegatedValue(t: string)
    requires |t| >= 1 && t[0] == '-'
    ensures SignedValue(t) == match DigitGroupsValue(t[1..]) case None => None case Some(v) => Some(-(v as int))
  {
  }

  /** `int()` of a minus sign followed by decimal digits. */
  lemma ParseIntOfNegatedDigits(s: string, digits: string)
    requires |digits| >= 1 && forall i | 0 <= i < |digits| :: IsDigit(digits[i])
    requires s == "-" + digits
    ensures ParseInt(s) == Some(-(DigitsValue(digits) as int))
  {
    StripNegated(s, digits);
    NegatedValue(s);
    DigitsAreGroups(digits);
  }

  /** `int(str(x)) == x`: reading back a rendered integer gives the integer. */
  lemma ParseIntOfIntToString(x: int)
    ensures ParseInt(IntToString(x)) == Some(x)
  {
    var n: nat := if x < 0 then -x else x;
    DigitsValueOfNatToString(n);
    if x < 0 {
      ParseIntOfNegatedDigits(IntToString(x), NatToString(n));
    } else {
      ParseIntOfDigits(NatToString(n));
    }
  }

}
