/** The per-field rules of `validateField`: a value is trimmed, an empty value is
    always refused as required, and a non-empty one is checked by the rule its
    field name selects. Field names are the form's input names. */
module Rules {
  import opened Text

  datatype Option<T> = None | Some(value: T)

  const Vardas := "vardas"
  const Pavarde := "pavarde"
  const Email := "email"
  const Telefonas := "telefonas"
  const Adresas := "adresas"
  const Dizainas := "dizainas"
  const Turinys := "turinys"
  const Patogumas := "patogumas"

  /** The keys of the form's field table, in declaration order. */
  const FieldNames: seq<string> := [Vardas, Pavarde, Email, Telefonas, Adresas, Dizainas, Turinys, Patogumas]

  /** One error per message the validator can show. */
  datatype Error = Required | LettersOnly | BadEmail | AddressTooShort | BadRating | BadPhone

  /** The text shown next to a field. Every message is non-empty, so "no message"
      and "valid" are the same thing. */
  function Message(e: Error): (m: string)
    ensures |m| > 0
  {
    match e
    case Required => "Šis laukas privalomas."
    case LettersOnly => "Naudokite tik raides."
    case BadEmail => "Neteisingas el. pašto formatas."
    case AddressTooShort => "Adresas per trumpas."
    case BadRating => "Įveskite skaičių nuo 1 iki 10."
    case BadPhone => "Įveskite teisingą tel. numerį (pvz. 86xxxxxxx)."
  }

  // ---------------------------------------------------------------------------
  // Names: /^[A-Za-zĄČĘĖĮŠŲŪŽąčęėįšųūž\s'-]+$/

  /** The Lithuanian letters the name pattern lists besides A-Z and a-z. */
  predicate IsLithuanianLetter(c: char) {
    c == 'Ą' || c == 'Č' || c == 'Ę' || c == 'Ė' || c == 'Į' || c == 'Š' || c == 'Ų' || c == 'Ū' || c == 'Ž' ||
    c == 'ą' || c == 'č' || c == 'ę' || c == 'ė' || c == 'į' || c == 'š' || c == 'ų' || c == 'ū' || c == 'ž'
  }

  predicate IsNameChar(c: char) {
    ('A' <= c <= 'Z') || ('a' <= c <= 'z') || IsLithuanianLetter(c) || IsSpace(c) || c == '\'' || c == '-'
  }

  /** The name rule: only letters, whitespace, apostrophes and hyphens, so an
      accepted name holds no digit and no `@`. */
  predicate NameOk(v: string)
    ensures NameOk(v) ==> v != [] && forall k | 0 <= k < |v| :: !IsDigit(v[k]) && v[k] != '@'
  {
    |v| > 0 && forall k | 0 <= k < |v| :: IsNameChar(v[k])
  }

  /** Two accepted names joined by a space or a hyphen make an accepted name. */
  lemma NameJoin(a: string, sep: char, b: string)
    requires NameOk(a) && NameOk(b) && (sep == ' ' || sep == '-')
    ensures NameOk(a + [sep] + b)
  {
  }

  // ---------------------------------------------------------------------------
  // Email: /^[^\s@]+@[^\s@]+\.[^\s@]+$/

  /** The regex class `[^\s@]`. */
  predicate IsEmailChar(c: char) {
    !IsSpace(c) && c != '@'
  }

  /** The email pattern, read as a split of the value: a non-empty local part, the
      `@` at position `a`, a non-empty domain label, the `.` at position `d`, and a
      non-empty ending; every position except `a` holds a `[^\s@]` character. */
  ghost predicate EmailPattern(v: string)
    ensures EmailPattern(v) ==> 5 <= |v| && '@' in v && '.' in v
  {
    exists a, d | 0 < a && a + 1 < d && d + 1 < |v| ::
      v[a] == '@' && v[d] == '.' &&
      forall k | 0 <= k < |v| && k != a :: IsEmailChar(v[k])
  }

  /** First position of `c` in `s`. */
  function IndexOf(s: string, c: char): (r: Option<nat>)
    ensures r.None? ==> c !in s
    ensures r.Some? ==> r.value < |s| && s[r.value] == c && c !in s[..r.value]
  {
    if s == [] then None
    else if s[0] == c then Some(0)
    else
      match IndexOf(s[1..], c)
      case None => None
      case Some(i) =>
        assert s[..i + 1] == [s[0]] + s[1..][..i];
        Some(i + 1)
  }

  /** The email rule as a scan: no whitespace anywhere, a first `@` that is not
      at the start and is the only one, and after it a `.` with at least one
      character on each side. */
  predicate EmailOk(v: string)
    ensures EmailOk(v) ==> 5 <= |v| && NoSpace(v) && v[0] != '@' && v[|v| - 1] != '@'
  {
    match IndexOf(v, '@')
    case None => false
    case Some(a) =>
      0 < a && NoSpace(v) && '@' !in v[a + 1..] &&
      exists d | a + 1 < d < |v| - 1 :: v[d] == '.'
  }

  /** The scan accepts exactly the values the email pattern matches. */
  lemma EmailOkIffPattern(v: string)
    ensures EmailOk(v) <==> EmailPattern(v)
  {
  }

  /** An accepted email address holds exactly one `@`. */
  lemma EmailOneAt(v: string)
    requires EmailOk(v)
    ensures multiset(v)['@'] == 1
  {
    var a := IndexOf(v, '@').value;
    assert v == v[..a] + [v[a]] + v[a + 1..];
    assert multiset(v) == multiset(v[..a]) + multiset{'@'} + multiset(v[a + 1..]);
  }

  // ---------------------------------------------------------------------------
  // Ratings: Number(value) in [1, 10], for decimal numerals

  /** The rating rule: a decimal numeral whose value lies in 1..10. The empty
      numeral is worth 0, so an accepted rating is never empty. */
  predicate RatingOk(v: string)
    ensures RatingOk(v) ==> v != [] && AllDigits(v)
  {
    AllDigits(v) && 1 <= ParseDecimal(v) <= 10
  }

  /** Leading zeros do not change a rating, as with `Number("010")`. */
  lemma RatingLeadingZero(v: string)
    ensures RatingOk("0" + v) <==> RatingOk(v)
  {
    assert ("0" + v)[1..] == v;
    if AllDigits(v) {
      assert AllDigits("0" + v);
    }
  }

  /** A number written out in decimal is an accepted rating exactly when it lies
      in 1..10. */
  lemma RatingOfNumber(n: nat)
    ensures RatingOk(ShowDecimal(n)) <==> 1 <= n <= 10
  {
    ParseShowDecimal(n);
  }

  // ---------------------------------------------------------------------------
  // Phones: /^3706\d{7}$/, /^86\d{7}$/ or /^6\d{7}$/ on the digit projection

  /** `^<prefix>\d{7}$`. */
  predicate PrefixThenSeven(d: string, prefix: string) {
    |d| == |prefix| + 7 && d[..|prefix|] == prefix && AllDigits(d[|prefix|..])
  }

  /** The three phone patterns on a digit string: eleven to eight digits. */
  predicate PhoneShape(d: string)
    ensures PhoneShape(d) ==> AllDigits(d) && 8 <= |d| <= 11
  {
    PrefixThenSeven(d, "3706") || PrefixThenSeven(d, "86") || PrefixThenSeven(d, "6")
  }

  /** The phone rule. The value must hold at least eight characters, since its
      digits alone number at least eight. */
  predicate PhoneOk(v: string)
    ensures PhoneOk(v) ==> 8 <= |v|
  {
    PhoneShape(Digits(v))
  }

  /** On a digit projection the three patterns are a length and a prefix: eleven
      digits starting 3706, nine starting 86, or eight starting 6. */
  lemma PhoneOkIff(v: string)
    ensures PhoneOk(v) <==>
      var d := Digits(v);
      (|d| == 11 && StartsWith(d, "3706")) || (|d| == 9 && StartsWith(d, "86")) || (|d| == 8 && StartsWith(d, "6"))
  {
  }

  /** Values each rule accepts or refuses. */
  lemma RuleExamples()
    ensures NameOk("Jonas") && NameOk("Žemaitė") && !NameOk("Jonas123")
    ensures EmailOk("a@b.co") && !EmailOk("a@b") && !EmailOk("a.b@")
    ensures RatingOk("1") && RatingOk("10") && !RatingOk("0") && !RatingOk("11") && !RatingOk("abc")
  {
    assert "Jonas123"[5] == '1';
    assert IndexOf("a@b.co", '@') == Some(1);
    assert "a@b.co"[3] == '.';
    assert "abc"[0] == 'a';
    assert "11"[..1] == "1";
    assert "10"[..1] == "1";
  }

  // ---------------------------------------------------------------------------
  // The dispatcher

  /** Which rule a field name selects. */
  datatype Rule = NameRule | EmailRule | AddressRule | RatingRule | PhoneRule | NoRule

  function RuleOf(name: string): (rule: Rule)
    ensures rule != NoRule <==> name in FieldNames
  {
    if name == Vardas || name == Pavarde then NameRule
    else if name == Email then EmailRule
    else if name == Adresas then AddressRule
    else if name == Dizainas || name == Turinys || name == Patogumas then RatingRule
    else if name == Telefonas then PhoneRule
    else NoRule
  }

  /** A rule's decision on a trimmed, non-empty value. */
  function RuleCheck(rule: Rule, v: string): (r: Option<Error>)
    ensures r != Some(Required)
    ensures rule == NoRule ==> r.None?
    ensures rule == AddressRule ==> (r.None? <==> |v| >= 4)
  {
    match rule
    case NameRule => if NameOk(v) then None else Some(LettersOnly)
    case EmailRule => if EmailOk(v) then None else Some(BadEmail)
    case AddressRule => if |v| < 4 then Some(AddressTooShort) else None
    case RatingRule => if RatingOk(v) then None else Some(BadRating)
    case PhoneRule => if PhoneOk(v) then None else Some(BadPhone)
    case NoRule => None
  }

  /** `validateField`'s decision on a bound input's raw value: `None` when no
      message is set. */
  function Check(name: string, raw: string): (r: Option<Error>)
    ensures r == Some(Required) <==> Trim(raw) == []
  {
    var v := Trim(raw);
    if v == [] then Some(Required) else RuleCheck(RuleOf(name), v)
  }

  /** The field table maps each name to its bound input's value; a name without
      one (missing from the table or unbound) always validates. */
  predicate FieldValid(inputs: map<string, string>, name: string)
    ensures name in inputs && Trim(inputs[name]) == [] ==> !FieldValid(inputs, name)
  {
    name !in inputs || Check(name, inputs[name]).None?
  }

  /** Every field passes. */
  predicate AllValid(inputs: map<string, string>)
    ensures AllValid(inputs) <==> forall n | n in FieldNames :: FieldValid(inputs, n)
    ensures AllValid(inputs) ==> forall n | n in FieldNames && n in inputs :: Trim(inputs[n]) != []
  {
    forall i | 0 <= i < |FieldNames| :: FieldValid(inputs, FieldNames[i])
  }

  /** Validating an already trimmed value gives the same answer. */
  lemma CheckTrimmed(name: string, raw: string)
    ensures Check(name, Trim(raw)) == Check(name, raw)
  {
    TrimIdempotent(raw);
  }

  /** Whatever the field, every failure is either "required" or the one error of
      that field's rule, and only the listed fields can fail with a rule error. */
  lemma CheckErrorOfField(name: string, raw: string)
    requires Check(name, raw).Some? && Check(name, raw) != Some(Required)
    ensures name in FieldNames
    ensures name == Vardas || name == Pavarde ==> Check(name, raw) == Some(LettersOnly)
    ensures name == Email ==> Check(name, raw) == Some(BadEmail)
    ensures name == Adresas ==> Check(name, raw) == Some(AddressTooShort)
    ensures name == Telefonas ==> Check(name, raw) == Some(BadPhone)
    ensures name == Dizainas || name == Turinys || name == Patogumas ==> Check(name, raw) == Some(BadRating)
  {
  }

  /** A non-empty address fails exactly when it is shorter than four characters. */
  lemma AddressLength(raw: string)
    requires Trim(raw) != []
    ensures Check(Adresas, raw).None? <==> |Trim(raw)| >= 4
  {
  }

  /** The phone rule sees only the digits of the value: two non-blank values with
      the same digits get the same verdict, whatever else they contain. */
  lemma PhoneDependsOnDigits(a: string, b: string)
    requires Trim(a) != [] && Trim(b) != []
    requires Digits(a) == Digits(b)
    ensures Check(Telefonas, a) == Check(Telefonas, b)
  {
    DigitsOfTrim(a);
    DigitsOfTrim(b);
  }
}
