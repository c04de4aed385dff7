/** Character classes and string helpers shared by the validation rules and the
    phone formatter: whitespace as JavaScript's `trim` and the regex class `\s`
    see it, ASCII digits as `\d` sees them, trimming, the digit projection
    `value.replace(/\D/g, "")`, and decimal numerals. */
module Text {

  /** The ECMAScript WhiteSpace and LineTerminator characters: the set that both
      `String.prototype.trim` removes and the regex class `\s` matches. None of
      them is a digit, an `@` or a `.`, so trimming never touches those. */
  predicate IsSpace(c: char)
    ensures IsSpace(c) ==> !IsDigit(c) && c != '@' && c != '.'
  {
    ('\t' <= c <= '\r') || c == ' ' || c == '\U{00A0}' || c == '\U{1680}' ||
    ('\U{2000}' <= c <= '\U{200A}') || c == '\U{2028}' || c == '\U{2029}' ||
    c == '\U{202F}' || c == '\U{205F}' || c == '\U{3000}' || c == '\U{FEFF}'
  }

  /** The regex class `\d`: ASCII digits only. */
  predicate IsDigit(c: char) {
    '0' <= c <= '9'
  }

  predicate AllSpace(s: string) {
    forall k | 0 <= k < |s| :: IsSpace(s[k])
  }

  predicate NoSpace(s: string) {
    forall k | 0 <= k < |s| :: !IsSpace(s[k])
  }

  predicate AllDigits(s: string) {
    forall k | 0 <= k < |s| :: IsDigit(s[k])
  }

  predicate StartsWith(s: string, prefix: string) {
    |prefix| <= |s| && s[..|prefix|] == prefix
  }

  /** The first position at or after `i` that does not hold whitespace. */
  function SkipSpace(s: string, i: nat): (k: nat)
    requires i <= |s|
    ensures i <= k <= |s|
    ensures forall m | i <= m < k :: IsSpace(s[m])
    ensures k == |s| || !IsSpace(s[k])
    decreases |s| - i
  {
    if i < |s| && IsSpace(s[i]) then SkipSpace(s, i + 1) else i
  }

  /** The end of `s[lo..j]` once its whitespace suffix is dropped. */
  function SkipSpaceBack(s: string, lo: nat, j: nat): (k: nat)
    requires lo <= j <= |s|
    ensures lo <= k <= j
    ensures forall m | k <= m < j :: IsSpace(s[m])
    ensures k == lo || !IsSpace(s[k - 1])
    decreases j
  {
    if lo < j && IsSpace(s[j - 1]) then SkipSpaceBack(s, lo, j - 1) else j
  }

  /** Where the trimmed value starts and ends in `s`. */
  function TrimStart(s: string): nat {
    SkipSpace(s, 0)
  }

  function TrimEnd(s: string): nat {
    SkipSpaceBack(s, TrimStart(s), |s|)
  }

  /** `String.prototype.trim`: whitespace removed from both ends; the result
      neither starts nor ends with whitespace. */
  function Trim(s: string): (r: string)
    ensures |r| <= |s|
    ensures r == [] || (!IsSpace(r[0]) && !IsSpace(r[|r| - 1]))
  {
    s[TrimStart(s)..TrimEnd(s)]
  }

  /** Trimming keeps a slice of the input and cuts off only whitespace. */
  lemma TrimCutsOnlySpace(s: string)
    ensures var i, j := TrimStart(s), TrimEnd(s);
      i <= j <= |s| && Trim(s) == s[i..j] && AllSpace(s[..i]) && AllSpace(s[j..])
  {
  }

  /** Trimming twice is trimming once. */
  lemma TrimIdempotent(s: string)
    ensures Trim(Trim(s)) == Trim(s)
  {
  }

  /** The digit projection `s.replace(/\D/g, "")`: the digits of `s`, in order. */
  function Digits(s: string): (r: string)
    ensures AllDigits(r) && |r| <= |s|
  {
    if s == [] then []
    else if IsDigit(s[0]) then [s[0]] + Digits(s[1..])
    else Digits(s[1..])
  }

  /** One character projects to itself when it is a digit and to nothing
      otherwise; with `DigitsAppend` this fixes the projection of every string. */
  lemma DigitsOfChar(c: char)
    ensures Digits([c]) == if IsDigit(c) then [c] else []
  {
    assert [c][1..] == [];
  }

  lemma {:induction false} DigitsAppend(a: string, b: string)
    ensures Digits(a + b) == Digits(a) + Digits(b)
  {
    if a == [] {
      assert a + b == b;
    } else {
      assert (a + b)[0] == a[0];
      assert (a + b)[1..] == a[1..] + b;
      DigitsAppend(a[1..], b);
    }
  }

  /** Projecting a digit string changes nothing. */
  lemma {:induction false} DigitsOfDigits(s: string)
    requires AllDigits(s)
    ensures Digits(s) == s
  {
    if s != [] {
      DigitsOfDigits(s[1..]);
    }
  }

  lemma {:induction false} DigitsOfSpace(s: string)
    requires AllSpace(s)
    ensures Digits(s) == []
  {
    if s != [] {
      DigitsOfSpace(s[1..]);
    }
  }

  /** Trimming never changes the digit projection, since it removes only
      whitespace. */
  lemma DigitsOfTrim(s: string)
    ensures Digits(Trim(s)) == Digits(s)
  {
    TrimCutsOnlySpace(s);
    var i, j := TrimStart(s), TrimEnd(s);
    assert s == s[..i] + s[i..j] + s[j..];
    DigitsAppend(s[..i] + s[i..j], s[j..]);
    DigitsAppend(s[..i], s[i..j]);
    DigitsOfSpace(s[..i]);
    DigitsOfSpace(s[j..]);
  }

  function DigitValue(c: char): (n: nat)
    requires IsDigit(c)
    ensures n < 10
  {
    (c as int) - ('0' as int)
  }

  function DigitChar(n: nat): (c: char)
    requires n < 10
    ensures IsDigit(c) && DigitValue(c) == n
  {
    ('0' as int + n) as char
  }

  /** The value of a decimal numeral (leading zeros allowed, as in `Number("010")`). */
  function ParseDecimal(s: string): (n: nat)
    requires AllDigits(s)
    ensures s != [] && s[0] == '0' ==> n == ParseDecimal(s[1..])
  {
    if s == [] then 0
    else
      assert |s| > 1 ==> s[..|s| - 1][1..] == s[1..][..|s| - 2];
      ParseDecimal(s[..|s| - 1]) * 10 + DigitValue(s[|s| - 1])
  }

  /** The shortest decimal numeral of `n`. */
  function ShowDecimal(n: nat): (s: string)
    ensures AllDigits(s) && 1 <= |s|
    ensures |s| > 1 ==> s[0] != '0'
  {
    if n < 10 then [DigitChar(n)] else ShowDecimal(n / 10) + [DigitChar(n % 10)]
  }

  /** Reading back a printed number gives the number. */
  lemma {:induction false} ParseShowDecimal(n: nat)
    ensures ParseDecimal(ShowDecimal(n)) == n
  {
    var s := ShowDecimal(n);
    if n >= 10 {
      assert s[..|s| - 1] == ShowDecimal(n / 10);
      ParseShowDecimal(n / 10);
    }
  }
}
