/**
 * What the application relies on from Python's built-in `int(text)` and
 * `str(number)`: both handlers turn a client- or provider-supplied string into
 * a record id with `int(...)`, and the checkout session's integer metadata
 * reaches the webhook as its decimal `str(...)` rendering.
 *
 * Modelled for ASCII text, base 10: surrounding whitespace is ignored, one
 * optional sign is accepted, and the digits may be grouped with single
 * underscores between digits. Leading zeros are allowed.
 */
module PyInt {
  import opened Wrappers

  /** The ASCII characters that `int()` skips before and after the number. */
  predicate IsSpace(c: char) {
    c == ' ' || c == '\t' || c == '\n' || c == '\U{000B}' || c == '\U{000C}' || c == '\r'
  }

  predicate IsDigit(c: char) {
    '0' <= c <= '9'
  }

  function DigitValue(c: char): (d: nat)
    requires IsDigit(c)
    ensures d < 10
  {
    (c as int) - ('0' as int)
  }

  /** The text left after removing the maximal run of leading whitespace. */
  function StripLeading(s: string): (r: string)
    ensures |r| <= |s| && r == s[|s| - |r|..]
    ensures r == [] || !IsSpace(r[0])
    ensures forall i | 0 <= i < |s| - |r| :: IsSpace(s[i])
  {
    if |s| > 0 && IsSpace(s[0]) then StripLeading(s[1..]) else s
  }

  /** The text left after removing the maximal run of trailing whitespace. */
  function StripTrailing(s: string): (r: string)
    ensures |r| <= |s| && r == s[..|r|]
    ensures r == [] || !IsSpace(r[|r| - 1])
    ensures forall i | |r| <= i < |s| :: IsSpace(s[i])
  {
    if |s| > 0 && IsSpace(s[|s| - 1]) then StripTrailing(s[..|s| - 1]) else s
  }

  function Strip(s: string): string {
    StripTrailing(StripLeading(s))
  }

  /**
   * The digit part accepted by `int()`: it starts and ends with a digit,
   * holds only digits and underscores, and never two underscores in a row.
   */
  ghost predicate DigitGroups(s: string) {
    && |s| > 0 && IsDigit(s[0]) && IsDigit(s[|s| - 1])
    && (forall i | 0 <= i < |s| :: IsDigit(s[i]) || s[i] == '_')
    && (forall i | 0 <= i < |s| - 1 :: !UnderscorePairAt(s, i))
  }

  predicate UnderscorePairAt(s: string, i: nat)
    requires i + 1 < |s|
  {
    s[i] == '_' && s[i + 1] == '_'
  }

  /** A whole number once whitespace is gone: an optional sign, then digit groups. */
  ghost predicate IntegerLiteral(t: string) {
    || DigitGroups(t)
    || (|t| > 0 && (t[0] == '+' || t[0] == '-') && DigitGroups(t[1..]))
  }

  /** What is left of digit groups once their last digit (and an underscore before it) is removed. */
  function GroupsPrefix(s: string): string
    requires |s| >= 2
  {
    if s[|s| - 2] == '_' then s[..|s| - 2] else s[..|s| - 1]
  }

  lemma DigitGroupsStep(s: string)
    requires |s| >= 2 && IsDigit(s[|s| - 1])
    ensures DigitGroups(s) <==> DigitGroups(GroupsPrefix(s))
  {
    var p := GroupsPrefix(s);
    var n := |s|;
    assert forall i | 0 <= i < |p| :: p[i] == s[i];
    if DigitGroups(s) {
      if s[n - 2] == '_' {
        assert n >= 3;
        assert !UnderscorePairAt(s, n - 3);
      }
      forall i | 0 <= i < |p| - 1
        ensures !UnderscorePairAt(p, i)
      {
        assert !UnderscorePairAt(s, i);
      }
    }
    if DigitGroups(p) {
      forall i | 0 <= i < n - 1
        ensures !UnderscorePairAt(s, i)
      {
        if i < |p| - 1 {
          assert !UnderscorePairAt(p, i);
        }
      }
    }
  }

  /**
   * Scans digit groups right to left, following the grammar
   * `groups ::= digit | groups digit | groups '_' digit`.
   */
  function ParseDigits(s: string): Option<nat>
    decreases |s|
  {
    if |s| == 0 || !IsDigit(s[|s| - 1]) then None
    else if |s| == 1 then Some(DigitValue(s[0]))
    else
      match ParseDigits(GroupsPrefix(s))
      case None => None
      case Some(v) => Some(10 * v + DigitValue(s[|s| - 1]))
  }

  /** The scanner accepts exactly the digit groups. */
  lemma {:induction false} ParseDigitsGrammar(s: string)
    ensures ParseDigits(s).Some? <==> DigitGroups(s)
    decreases |s|
  {
    if |s| >= 2 && IsDigit(s[|s| - 1]) {
      DigitGroupsStep(s);
      ParseDigitsGrammar(GroupsPrefix(s));
    }
  }

  /** A whole number without surrounding whitespace; None when it is not one. */
  function ParseLiteral(t: string): Option<int> {
    if |t| > 0 && (t[0] == '+' || t[0] == '-') then
      match ParseDigits(t[1..])
      case None => None
      case Some(v) =>
        var n: int := if t[0] == '-' then -(v as int) else v;
        Some(n)
    else
      match ParseDigits(t)
      case None => None
      case Some(v) => Some(v)
  }

  /** The digits of `s` with every underscore removed. */
  function WithoutUnderscores(s: string): string
    decreases |s|
  {
    if s == [] then []
    else WithoutUnderscores(s[..|s| - 1]) + (if s[|s| - 1] == '_' then [] else [s[|s| - 1]])
  }

  /** The number a string of decimal digits denotes, most significant digit first. */
  function DecimalValue(ds: string): int
    decreases |ds|
  {
    if ds == [] then 0
    else 10 * DecimalValue(ds[..|ds| - 1]) + ((ds[|ds| - 1] as int) - ('0' as int))
  }

  lemma DecimalValueSnoc(ds: string, c: char)
    ensures DecimalValue(ds + [c]) == 10 * DecimalValue(ds) + ((c as int) - ('0' as int))
  {
    assert (ds + [c])[..|ds|] == ds;
  }

  lemma WithoutUnderscoresStep(s: string)
    requires |s| >= 2 && IsDigit(s[|s| - 1])
    ensures WithoutUnderscores(s) == WithoutUnderscores(GroupsPrefix(s)) + [s[|s| - 1]]
  {
    var n := |s|;
    var init := s[..n - 1];
    assert WithoutUnderscores(s) == WithoutUnderscores(init) + [s[n - 1]];
    if s[n - 2] == '_' {
      assert init[..n - 2] == s[..n - 2];
      assert init[n - 2] == '_';
      assert WithoutUnderscores(init) == WithoutUnderscores(s[..n - 2]);
    }
  }

  lemma ParseDigitsUnfold(s: string)
    requires |s| >= 2 && IsDigit(s[|s| - 1]) && ParseDigits(GroupsPrefix(s)).Some?
    ensures ParseDigits(s) == Some(10 * ParseDigits(GroupsPrefix(s)).value + DigitValue(s[|s| - 1]))
  {
  }

  /** Digit groups denote the number their digits spell once the underscores are dropped. */
  lemma {:induction false} ParseDigitsValue(s: string)
    requires DigitGroups(s)
    ensures ParseDigits(s).Some? && ParseDigits(s).value == DecimalValue(WithoutUnderscores(s))
    decreases |s|
  {
    if |s| == 1 {
      assert WithoutUnderscores(s) == [] + [s[0]];
      DecimalValueSnoc([], s[0]);
    } else {
      var p := GroupsPrefix(s);
      DigitGroupsStep(s);
      ParseDigitsValue(p);
      ParseDigitsUnfold(s);
      WithoutUnderscoresStep(s);
      DecimalValueSnoc(WithoutUnderscores(p), s[|s| - 1]);
    }
  }

  /** The literal scanner accepts exactly an optional sign followed by digit groups. */
  lemma ParseLiteralGrammar(t: string)
    ensures ParseLiteral(t).Some? <==> IntegerLiteral(t)
  {
    ParseDigitsGrammar(t);
    if |t| > 0 {
      ParseDigitsGrammar(t[1..]);
    }
  }

  /**
   * `int(text)`: None stands for the ValueError it raises. It succeeds
   * exactly on an optionally signed literal surrounded by whitespace.
   */
  function Parse(text: string): (r: Option<int>)
    ensures r.Some? <==> IntegerLiteral(Strip(text))
  {
    ParseLiteralGrammar(Strip(text));
    ParseLiteral(Strip(text))
  }

  const Digits: string := "0123456789"

  /** The canonical decimal rendering of a natural number, as `str()` gives it. */
  function Show(n: nat): (s: string)
    ensures |s| > 0
    ensures forall i | 0 <= i < |s| :: IsDigit(s[i])
    ensures s[0] == '0' ==> n == 0
  {
    if n < 10 then [Digits[n]] else Show(n / 10) + [Digits[n % 10]]
  }

  /** `str(n)` for a Python int: a minus sign for negative numbers. */
  function Str(n: int): (s: string)
    ensures |s| > 0 && IsDigit(s[|s| - 1])
    ensures s[0] == '-' <==> n < 0
  {
    if n < 0 then "-" + Show(-n) else Show(n)
  }

  lemma DigitValueOfDigits(k: nat)
    requires k < 10
    ensures IsDigit(Digits[k]) && DigitValue(Digits[k]) == k
  {
  }

  /** Appending a digit to digit groups that end in a digit shifts their value by one place. */
  lemma ParseDigitsSnoc(p: string, c: char)
    requires |p| > 0 && IsDigit(p[|p| - 1]) && IsDigit(c)
    ensures ParseDigits(p + [c])
         == if ParseDigits(p).Some? then Some(10 * ParseDigits(p).value + DigitValue(c)) else None
  {
    assert GroupsPrefix(p + [c]) == p;
  }

  lemma {:induction false} ParseShow(n: nat)
    ensures ParseDigits(Show(n)) == Some(n)
  {
    DigitValueOfDigits(n % 10);
    if n >= 10 {
      ParseShow(n / 10);
      ParseDigitsSnoc(Show(n / 10), Digits[n % 10]);
    }
  }

  /** `str(n)` has no whitespace to strip. */
  lemma StrIsStripped(n: int)
    ensures Strip(Str(n)) == Str(n)
  {
    var s := Str(n);
    assert !IsSpace(s[0]);
    assert StripLeading(s) == s;
    assert !IsSpace(s[|s| - 1]);
    assert StripTrailing(s) == s;
  }

  /** `int(str(n)) == n` for every integer n, negative ones included. */
  lemma {:induction false} ParseStr(n: int)
    ensures Parse(Str(n)) == Some(n)
  {
    StrIsStripped(n);
    ParseLiteralStr(n);
  }

  lemma ParseLiteralStr(n: int)
    ensures ParseLiteral(Str(n)) == Some(n)
  {
    var s := Str(n);
    if n < 0 {
      ParseShow(-n);
      assert s[1..] == Show(-n);
    } else {
      ParseShow(n);
    }
  }

  lemma {:induction false} StripLeadingSpaces(ws: string, s: string)
    requires forall i | 0 <= i < |ws| :: IsSpace(ws[i])
    ensures StripLeading(ws + s) == StripLeading(s)
    decreases |ws|
  {
    if |ws| > 0 {
      assert (ws + s)[1..] == ws[1..] + s;
      StripLeadingSpaces(ws[1..], s);
    } else {
      assert ws + s == s;
    }
  }

  lemma {:induction false} StripTrailingSpaces(s: string, ws: string)
    requires forall i | 0 <= i < |ws| :: IsSpace(ws[i])
    ensures StripTrailing(s + ws) == StripTrailing(s)
    decreases |ws|
  {
    if |ws| > 0 {
      assert (s + ws)[..|s + ws| - 1] == s + ws[..|ws| - 1];
      StripTrailingSpaces(s, ws[..|ws| - 1]);
    } else {
      assert s + ws == s;
    }
  }

  lemma PaddedStrip(ws: string, s: string, ws': string)
    requires forall i | 0 <= i < |ws| :: IsSpace(ws[i])
    requires forall i | 0 <= i < |ws'| :: IsSpace(ws'[i])
    requires |s| > 0 && !IsSpace(s[0]) && !IsSpace(s[|s| - 1])
    ensures Strip(ws + s + ws') == s
  {
    assert ws + s + ws' == ws + (s + ws');
    StripLeadingSpaces(ws, s + ws');
    assert StripLeading(s + ws') == s + ws';
    StripTrailingSpaces(s, ws');
  }

  /** `int()` accepts the rendering of n with any whitespace around it. */
  lemma {:induction false} ParsePadded(ws: string, n: int, ws': string)
    requires forall i | 0 <= i < |ws| :: IsSpace(ws[i])
    requires forall i | 0 <= i < |ws'| :: IsSpace(ws'[i])
    ensures Parse(ws + Str(n) + ws') == Some(n)
  {
    var s := Str(n);
    StrIsStripped(n);
    PaddedStrip(ws, s, ws');
    ParseLiteralStr(n);
  }

  /** Leading zeros are ignored: `int("007") == 7`. */
  lemma {:induction false} ParseLeadingZero(s: string)
    requires DigitGroups(s)
    ensures ParseDigits("0" + s) == ParseDigits(s)
    decreases |s|
  {
    var z := "0" + s;
    DigitValueOfDigits(0);
    if |s| == 1 {
      assert GroupsPrefix(z) == "0";
    } else {
      assert GroupsPrefix(z) == "0" + GroupsPrefix(s);
      DigitGroupsStep(s);
      ParseLeadingZero(GroupsPrefix(s));
    }
  }
}
