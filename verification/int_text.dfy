/**
  Python's `int(text)` on command-line arguments: surrounding whitespace is
  ignored, an optional `+` or `-` sign may lead, and the digits may be grouped
  by single underscores placed between two digits (`1_000`). Anything else
  raises ValueError, modelled here as `None`.
*/
module IntText {
  import opened Wrappers

  predicate IsDigit(c: char) {
    '0' <= c <= '9'
  }

  /** The ASCII characters Python counts as whitespace, which `str.strip()`
      and `int()` skip: tab, line feed, vertical tab, form feed, carriage
      return, the four separators 0x1C-0x1F, and space. */
  predicate IsSpace(c: char) {
    c == ' ' || 9 <= c as int <= 13 || 28 <= c as int <= 31
  }

  /** The number of whitespace characters `s` begins with. */
  function LeadingSpaces(s: string): (n: nat)
    ensures n <= |s|
    ensures forall i :: 0 <= i < n ==> IsSpace(s[i])
    ensures n == |s| || !IsSpace(s[n])
  {
    if s != [] && IsSpace(s[0]) then 1 + LeadingSpaces(s[1..]) else 0
  }

  /** The number of whitespace characters `s` ends with. */
  function TrailingSpaces(s: string): (n: nat)
    ensures n <= |s|
    ensures forall i :: |s| - n <= i < |s| ==> IsSpace(s[i])
    ensures n == |s| || !IsSpace(s[|s| - n - 1])
  {
    if s != [] && IsSpace(s[|s| - 1]) then 1 + TrailingSpaces(s[..|s| - 1]) else 0
  }

  /** `str.strip()`: `s` without its leading and trailing whitespace. */
  function Strip(s: string): string {
    var a := LeadingSpaces(s);
    s[a..|s| - TrailingSpaces(s[a..])]
  }

  /** Position `i` of `s` holds a digit, or an underscore between two digits. */
  predicate DigitOrJoiner(s: string, i: nat)
    requires i < |s|
  {
    IsDigit(s[i]) || (s[i] == '_' && 0 < i < |s| - 1 && IsDigit(s[i - 1]) && IsDigit(s[i + 1]))
  }

  /** Digits, where each underscore sits between two digits. */
  predicate IsDigitText(s: string) {
    && |s| > 0
    && IsDigit(s[0])
    && IsDigit(s[|s| - 1])
    && forall i: nat :: i < |s| ==> DigitOrJoiner(s, i)
  }

  /** The decimal value of the digits of `s`, underscores ignored. */
  function DigitsValue(s: string): nat {
    if s == [] then 0
    else if IsDigit(s[|s| - 1]) then DigitsValue(s[..|s| - 1]) * 10 + (s[|s| - 1] as int - '0' as int)
    else DigitsValue(s[..|s| - 1])
  }

  /** The value of stripped text `t` with an optional leading sign. */
  function SignedValue(t: string): Option<int> {
    if |t| > 0 && (t[0] == '-' || t[0] == '+') then
      if IsDigitText(t[1..]) then
        var v: int := DigitsValue(t[1..]);
        Some(if t[0] == '-' then -v else v)
      else None
    else if IsDigitText(t) then Some(DigitsValue(t))
    else None
  }

  /** `int(text)`: the integer `text` denotes, or None where Python raises ValueError. */
  function ParseInt(text: string): (r: Option<int>)
    ensures (forall i :: 0 <= i < |text| ==> !IsDigit(text[i])) ==> r.None?
  {
    var a := LeadingSpaces(text);
    var t := Strip(text);
    assert forall i :: 0 <= i < |t| ==> t[i] == text[a + i];
    SignedValue(t)
  }

  function DigitChar(d: nat): (c: char)
    requires d < 10
    ensures IsDigit(c) && c as int - '0' as int == d
  {
    ('0' as int + d) as char
  }

  /** The shortest decimal text of `n`, as Python's `str(n)` writes it. */
  function NatText(n: nat): (s: string)
    ensures |s| > 0
    ensures forall i :: 0 <= i < |s| ==> IsDigit(s[i])
    decreases n
  {
    if n < 10 then [DigitChar(n)] else NatText(n / 10) + [DigitChar(n % 10)]
  }

  function DecimalText(n: int): string {
    if n < 0 then "-" + NatText(-n) else NatText(n)
  }

  lemma {:induction false} NatTextValue(n: nat)
    ensures DigitsValue(NatText(n)) == n
    decreases n
  {
    if n >= 10 {
      var s := NatText(n);
      assert s[..|s| - 1] == NatText(n / 10);
      NatTextValue(n / 10);
    }
  }

  lemma StripDigitsIdentity(s: string)
    requires |s| > 0 && !IsSpace(s[0]) && !IsSpace(s[|s| - 1])
    ensures Strip(s) == s
  {
  }

  lemma DigitsAreDigitText(s: string)
    requires |s| > 0 && forall i :: 0 <= i < |s| ==> IsDigit(s[i])
    ensures IsDigitText(s)
  {
  }

  /** `int(str(n)) == n` for every integer `n`. */
  lemma ParseIntRoundTrip(n: int)
    ensures ParseInt(DecimalText(n)) == Some(n)
  {
    var t := DecimalText(n);
    if n < 0 {
      var d := NatText(-n);
      assert t == "-" + d;
      assert t[1..] == d;
      StripDigitsIdentity(t);
      DigitsAreDigitText(d);
      NatTextValue(-n);
      assert SignedValue(t) == Some(n);
    } else {
      StripDigitsIdentity(t);
      DigitsAreDigitText(t);
      NatTextValue(n);
      assert SignedValue(t) == Some(n);
    }
  }

  /** Stripping removes only whitespace, so every visible character of `s`
      survives inside the window that starts after the leading whitespace. */
  lemma StripWindow(s: string, k: nat)
    requires k < |s| && !IsSpace(s[k])
    ensures var a := LeadingSpaces(s);
      && a <= k < a + |Strip(s)|
      && Strip(s) == s[a..a + |Strip(s)|]
  {
  }

  lemma DotBreaksDigits(u: string, k: nat)
    requires k < |u| && u[k] == '.'
    ensures !IsDigitText(u)
  {
    assert !DigitOrJoiner(u, k);
  }

  /** Text holding a decimal point is no integer: `int("0.5")` raises ValueError. */
  lemma FractionRejected(text: string, k: nat)
    requires k < |text| && text[k] == '.'
    ensures ParseInt(text) == None
  {
    StripWindow(text, k);
    var a := LeadingSpaces(text);
    var t := Strip(text);
    assert t[k - a] == '.';
    if |t| > 0 && (t[0] == '-' || t[0] == '+') {
      assert t[1..][k - a - 1] == '.';
      DotBreaksDigits(t[1..], k - a - 1);
    } else {
      DotBreaksDigits(t, k - a);
    }
  }

  /** An underscore in `u` that is not preceded or not followed by a digit
      breaks digit text. */
  lemma LooseJoinerBreaksDigits(u: string, j: nat)
    requires j < |u| && u[j] == '_'
    requires (j == 0 || !IsDigit(u[j - 1])) || (j + 1 == |u| || !IsDigit(u[j + 1]))
    ensures !IsDigitText(u)
  {
    if j != 0 && j + 1 != |u| {
      assert !DigitOrJoiner(u, j);
    }
  }

  /** Python accepts an underscore only between two digits: `int("_1")`,
      `int("1_")` and `int("1__0")` all raise ValueError. */
  lemma LooseJoinerRejected(text: string, k: nat)
    requires k < |text| && text[k] == '_'
    requires (k == 0 || !IsDigit(text[k - 1])) || (k + 1 == |text| || !IsDigit(text[k + 1]))
    ensures ParseInt(text) == None
  {
    StripWindow(text, k);
    var a := LeadingSpaces(text);
    var t := Strip(text);
    var j := k - a;
    assert t[j] == '_';
    assert j > 0 ==> t[j - 1] == text[k - 1];
    assert j + 1 < |t| ==> t[j + 1] == text[k + 1];
    if |t| > 0 && (t[0] == '-' || t[0] == '+') {
      var u := t[1..];
      assert j >= 1 && u[j - 1] == '_';
      assert j >= 2 ==> u[j - 2] == t[j - 1];
      assert j < |t| - 1 ==> u[j] == t[j + 1];
      LooseJoinerBreaksDigits(u, j - 1);
    } else {
      LooseJoinerBreaksDigits(t, j);
    }
  }

  lemma GroupedExample()
    ensures ParseInt("1_000") == Some(1000)
  {
    StripDigitsIdentity("1_000");
    assert IsDigitText("1_000") by {
      assert forall i: nat :: i < 5 ==> DigitOrJoiner("1_000", i);
    }
    assert DigitsValue("1_000") == 1000 by {
      assert "1_000"[..4] == "1_00";
      assert "1_00"[..3] == "1_0";
      assert "1_0"[..2] == "1_";
      assert "1_"[..1] == "1";
      assert "1"[..0] == "";
    }
  }
}
