/** `handlePhoneInput`: the phone field's value is rewritten on every input event,
    before it is validated. Non-digits are dropped, the domestic forms `86…` and
    `6…` are turned into the international `3706…`, and a number in the
    international form gets a leading `+`. */
module PhoneFormat {
  import opened Text
  import opened Rules

  /** The rewrite of the digit string: a leading `86` becomes `3706`, a bare
      leading `6` gets `370` in front, anything else is kept. The result never
      starts with either domestic prefix, so rewriting again changes nothing. */
  function Rewrite(d: string): (r: string)
    ensures AllDigits(d) ==> AllDigits(r)
    ensures !StartsWith(r, "86") && !StartsWith(r, "6")
    ensures StartsWith(d, "86") || StartsWith(d, "6") ==> StartsWith(r, "3706")
  {
    if StartsWith(d, "86") then
      var r := "3706" + d[2..];
      assert r[0] == '3';
      r
    else if StartsWith(d, "6") then
      var r := "370" + d;
      assert r[0] == '3' && r[3] == d[0];
      r
    else d
  }

  /** Only the domestic prefix is touched: after a leading `86` the digits are
      kept, a bare leading `6` is kept whole behind `370`, and any other digit
      string is returned as it is. */
  lemma RewriteKeepsRest(d: string)
    ensures StartsWith(d, "86") ==> |Rewrite(d)| == |d| + 2 && Rewrite(d)[4..] == d[2..]
    ensures !StartsWith(d, "86") && StartsWith(d, "6") ==> |Rewrite(d)| == |d| + 3 && Rewrite(d)[3..] == d
    ensures !StartsWith(d, "86") && !StartsWith(d, "6") ==> Rewrite(d) == d
  {
  }

  /** The value the phone field holds after an input event: a digit string,
      with a single `+` in front exactly when those digits start with `370`. */
  predicate Formatted(s: string) {
    var d := Digits(s);
    if StartsWith(d, "370") then s == "+" + d else s == d
  }

  /** The new value of the phone field after an input event. */
  function NormalizePhone(raw: string): (r: string)
    ensures Formatted(r)
    ensures Digits(r) == Rewrite(Digits(raw))
  {
    var d := Rewrite(Digits(raw));
    DigitsOfDigits(d);
    if StartsWith(d, "370") then
      assert Digits("+" + d) == d by {
        DigitsAppend("+", d);
      }
      "+" + d
    else
      d
  }

  /** Formatting the field's value again leaves it as it is; it matters because
      the formatter runs on every keystroke. */
  lemma NormalizeIdempotent(raw: string)
    ensures NormalizePhone(NormalizePhone(raw)) == NormalizePhone(raw)
  {
  }

  /** The formatter's outputs are exactly the values it leaves unchanged. */
  lemma NormalizeImageIsFixedPoints(s: string)
    ensures (exists raw :: NormalizePhone(raw) == s) <==> NormalizePhone(s) == s
  {
  }

  /** Rewriting a digit string neither makes a valid number invalid nor an
      invalid one valid. */
  lemma RewriteKeepsShape(d: string)
    requires AllDigits(d)
    ensures PhoneShape(Rewrite(d)) <==> PhoneShape(d)
  {
  }

  /** The phone field is valid exactly when its digits have one of the three
      accepted shapes; blanks have no digits and so are covered too. */
  lemma PhoneValidIffShape(raw: string)
    ensures Check(Telefonas, raw).None? <==> PhoneShape(Digits(raw))
  {
    DigitsOfTrim(raw);
    if Trim(raw) == [] {
      assert Digits(Trim(raw)) == [];
    }
  }

  /** Formatting the phone field keeps its verdict: a number that was valid as
      typed is valid after formatting, and an invalid one stays invalid. */
  lemma NormalizeKeepsValidity(raw: string)
    ensures Check(Telefonas, NormalizePhone(raw)).None? <==> Check(Telefonas, raw).None?
  {
    PhoneValidIffShape(raw);
    PhoneValidIffShape(NormalizePhone(raw));
    RewriteKeepsShape(Digits(raw));
  }

  /** The three accepted digit shapes all rewrite to `3706` and the last seven
      digits. */
  lemma RewriteValidIsCanonical(d: string)
    requires PhoneShape(d)
    ensures |d| >= 8 && Rewrite(d) == "3706" + d[|d| - 7..]
  {
  }

  /** A number in one of the accepted shapes, whatever separators it was typed
      with, is formatted to `+3706` and its last seven digits. */
  lemma NormalizeShapeIsCanonical(raw: string)
    requires PhoneShape(Digits(raw))
    ensures var d := Digits(raw); |d| >= 8 && NormalizePhone(raw) == "+3706" + d[|d| - 7..]
  {
    var d := Digits(raw);
    RewriteValidIsCanonical(d);
    var t := d[|d| - 7..];
    var r := Rewrite(d);
    assert r == "3706" + t;
    assert StartsWith(r, "370") by {
      assert r[..3] == "370";
    }
    assert NormalizePhone(raw) == "+" + r;
    assert "+" + ("3706" + t) == "+3706" + t;
  }

  /** Every valid way of typing a number, `3706xxxxxxx`, `86xxxxxxx` or
      `6xxxxxxx` with any separators, is formatted to the same `+3706xxxxxxx`. */
  lemma NormalizeValidIsCanonical(raw: string)
    requires Check(Telefonas, raw).None?
    ensures var d := Digits(raw); |d| >= 8 && NormalizePhone(raw) == "+3706" + d[|d| - 7..]
  {
    PhoneValidIffShape(raw);
    NormalizeShapeIsCanonical(raw);
  }

  /** Validity is kept but not the message: letters alone are a bad number as
      typed, and once the formatter strips them the field is blank. */
  lemma NormalizeCanBlankTheField()
    ensures Check(Telefonas, "abc") == Some(BadPhone)
    ensures Check(Telefonas, NormalizePhone("abc")) == Some(Required)
  {
  }
}
