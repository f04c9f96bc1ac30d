/** `Fono\Countries\CZ\Phone`: a Czech phone number. Its canonical form is `00420`
    followed by the nine national digits; its plain form is the nine digits; its
    display form groups them three by three. */
module CzPhone {
  import opened Text
  import opened Patterns
  import Fono

  /** `Phone::PREG_FILTER`. */
  const Filter: Pattern := CzPhonePattern

  /** The length of a national number, the one length that gets the country prefix. */
  const NationalLength: nat := 9

  /** `preg_replace('#^\+#u', '00', s)`: only a `+` in the first position is rewritten. */
  function RewriteLeadingPlus(s: string): string {
    if |s| > 0 && s[0] == '+' then "00" + s[1..] else s
  }

  /** The length test: a string of national length gets `00420` in front. */
  function AddCountryPrefix(s: string): string {
    if |s| == NationalLength then CzPrefix + s else s
  }

  /** The separator-free string the later steps of `getSanitized` work on. */
  function Stripped(input: string): string {
    Delete(PhoneSeparator, input)
  }

  /** `getSanitized`, reading the raw input (see `SanitizedAsWritten` for what the
      source's call to the undeclared `getValue` does instead). The result never holds
      whitespace, dots or dashes, never starts with `+`, and never has national length,
      because a string of that length is always lengthened to fourteen. */
  function Sanitized(input: string): (r: string)
    ensures NoneIn(PhoneSeparator, r)
    ensures |r| != NationalLength
    ensures |r| == 0 || r[0] != '+'
  {
    var t := Stripped(input);
    var r := AddCountryPrefix(RewriteLeadingPlus(t));
    assert NoneIn(PhoneSeparator, RewriteLeadingPlus(t)) by {
      if |t| > 0 && t[0] == '+' {
        var u := RewriteLeadingPlus(t);
        forall i | 0 <= i < |u| ensures !InClass(PhoneSeparator, u[i]) {
          if i >= 2 { assert u[i] == t[i - 1]; }
        }
      }
    }
    r
  }

  /** `validate`, inherited: the phone filter on the phone's own sanitized value. */
  predicate Validate(input: string) {
    Fono.Validate(Filter, Sanitized(input))
  }

  /** `getPlain`: the nine national digits of a valid number; any other value is
      returned in its sanitized form. Since no sanitized value has nine characters,
      the result is nine digits exactly when the number is valid. */
  function Plain(input: string): (r: string)
    ensures Validate(input) <==> |r| == NationalLength && AllDigits(r)
    ensures Validate(input) ==> Sanitized(input) == CzPrefix + r
    ensures !Validate(input) ==> r == Sanitized(input)
  {
    var s := Sanitized(input);
    if PhoneShape(s) then
      assert s == s[..5] + s[5..];
      s[5..]
    else s
  }

  /** `getFormatted`: the nine digits of a valid number as three groups of three
      separated by single spaces; any other value in its sanitized form. */
  function Formatted(input: string): (r: string)
    ensures Validate(input) ==>
      var p := Plain(input); r == p[..3] + " " + p[3..6] + " " + p[6..]
    ensures Validate(input) ==> |r| == 11 && r[3] == ' ' && r[7] == ' '
    ensures Validate(input) ==> Delete(Whitespace, r) == Plain(input)
    ensures !Validate(input) ==> r == Sanitized(input)
  {
    var s := Sanitized(input);
    if PhoneShape(s) then
      var p := s[5..];
      GroupsOfThree(p);
      Join(' ', Chunks(p, 3))
    else s
  }

  /** `implode(' ', str_split(p, 3))` on nine digits, and what deleting the spaces gives back. */
  lemma GroupsOfThree(p: string)
    requires |p| == 9 && AllDigits(p)
    ensures Join(' ', Chunks(p, 3)) == p[..3] + " " + p[3..6] + " " + p[6..]
    ensures Delete(Whitespace, Join(' ', Chunks(p, 3))) == p
  {
    ChunksOfNine(p);
    assert AllDigits(p[..3]) && AllDigits(p[3..6]) && AllDigits(p[6..]);
    DeleteGroups(Whitespace, p[..3], p[3..6], p[6..]);
    assert p == p[..3] + p[3..6] + p[6..];
  }

  /** `str_split(p, 3)` cuts nine characters into three groups, and `implode` puts one
      space between neighbouring groups. */
  lemma ChunksOfNine(p: string)
    requires |p| == 9
    ensures Chunks(p, 3) == [p[..3], p[3..6], p[6..]]
    ensures Join(' ', Chunks(p, 3)) == p[..3] + " " + p[3..6] + " " + p[6..]
  {
    var a, b, c := p[..3], p[3..6], p[6..];
    assert p[3..][..3] == b && p[3..][3..] == c;
    assert Chunks(c, 3) == [c];
    assert Chunks(p[3..], 3) == [b, c];
    var parts := [a, b, c];
    assert parts[1..] == [b, c] && parts[1..][1..] == [c];
    assert Join(' ', [b, c]) == b + [' '] + c;
    assert Join(' ', parts) == a + [' '] + (b + [' '] + c);
  }

  // ---------------------------------------------------------------------------
  // Properties of the sanitizer

  /** The country prefix is added exactly when the stripped, `+`-rewritten string has
      national length; otherwise that string is the result as it stands. */
  lemma PrefixExactlyAtNationalLength(input: string)
    ensures var u := RewriteLeadingPlus(Stripped(input));
      && (Sanitized(input) == CzPrefix + u <==> |u| == NationalLength)
      && (Sanitized(input) == u <==> |u| != NationalLength)
  {
  }

  /** Whatever separators stand before it, a leading `+` behaves exactly like `00`. */
  lemma LeadingPlusIsDoubleZero(a: string, b: string)
    requires Stripped(a) == []
    ensures Sanitized(a + "+" + b) == Sanitized(a + "00" + b)
  {
    var sb := Stripped(b);
    assert Stripped("+") == "+" by { DeleteFixpoint(PhoneSeparator, "+"); }
    assert Stripped("00") == "00" by { DeleteFixpoint(PhoneSeparator, "00"); }
    DeleteConcat(PhoneSeparator, a + "+", b);
    DeleteConcat(PhoneSeparator, a, "+");
    assert Stripped(a + "+") == "+";
    assert Stripped(a + "+" + b) == "+" + sb;
    DeleteConcat(PhoneSeparator, a + "00", b);
    DeleteConcat(PhoneSeparator, a, "00");
    assert Stripped(a + "00") == "00";
    assert Stripped(a + "00" + b) == "00" + sb;
    assert ("+" + sb)[1..] == sb;
    assert RewriteLeadingPlus("+" + sb) == "00" + sb;
    assert RewriteLeadingPlus("00" + sb) == "00" + sb;
  }

  /** Only the first `+` of the stripped input is consumed: every other `+` of the raw
      input survives into the sanitized value. */
  lemma PlusCount(input: string)
    ensures var t := Stripped(input);
      multiset(Sanitized(input))['+'] + (if |t| > 0 && t[0] == '+' then 1 else 0)
        == multiset(input)['+']
  {
    DeleteKeepsCounts(PhoneSeparator, input, '+');
    var t := Stripped(input);
    var u := RewriteLeadingPlus(t);
    if |t| > 0 && t[0] == '+' {
      RewriteConsumesOnePlus(t);
    }
    if |u| == NationalLength {
      PrefixAddsNoPlus(u);
    }
  }

  lemma RewriteConsumesOnePlus(t: string)
    requires |t| > 0 && t[0] == '+'
    ensures multiset(RewriteLeadingPlus(t))['+'] + 1 == multiset(t)['+']
  {
    var u := RewriteLeadingPlus(t);
    assert t == [t[0]] + t[1..];
    assert multiset(t)['+'] == multiset([t[0]])['+'] + multiset(t[1..])['+'];
    assert u == "00" + t[1..];
    assert multiset(u)['+'] == multiset("00")['+'] + multiset(t[1..])['+'];
  }

  lemma PrefixAddsNoPlus(u: string)
    ensures multiset(CzPrefix + u)['+'] == multiset(u)['+']
  {
    assert multiset(CzPrefix + u) == multiset(CzPrefix) + multiset(u);
    assert '+' !in CzPrefix;
  }

  /** Sanitizing a sanitized value gives it back. */
  lemma {:induction false} SanitizedIdempotent(input: string)
    ensures Sanitized(Sanitized(input)) == Sanitized(input)
  {
    var s := Sanitized(input);
    DeleteFixpoint(PhoneSeparator, s);
    assert Stripped(s) == s;
    assert RewriteLeadingPlus(s) == s;
  }

  /** The stripped raw inputs that validate: nine digits; `+` and seven digits (which
      the rewrite turns into nine characters `00…`); `00420` and nine digits; `+420`
      and nine digits. */
  predicate ValidStripped(t: string) {
    || (|t| == 9 && AllDigits(t))
    || (|t| == 8 && t[0] == '+' && AllDigits(t[1..]))
    || PhoneShape(t)
    || (|t| == 13 && t[..4] == "+420" && AllDigits(t[4..]))
  }

  /** A raw number validates exactly when its separator-free form is one of the
      shapes above; in particular any nine digits with spaces, dots or dashes
      anywhere among them validate. */
  lemma ValidIff(input: string)
    ensures Validate(input) <==> ValidStripped(Stripped(input))
  {
    var t := Stripped(input);
    if |t| > 0 && t[0] == '+' {
      ValidStrippedWithPlus(t);
    } else {
      ValidStrippedWithoutPlus(t);
    }
  }

  lemma PrefixedShape(u: string)
    requires |u| == NationalLength
    ensures PhoneShape(CzPrefix + u) <==> AllDigits(u)
  {
    assert (CzPrefix + u)[..5] == CzPrefix && (CzPrefix + u)[5..] == u;
  }

  lemma ValidStrippedWithoutPlus(t: string)
    requires |t| == 0 || t[0] != '+'
    ensures ValidStripped(t) <==> PhoneShape(AddCountryPrefix(t))
  {
    if |t| == NationalLength {
      PrefixedShape(t);
    } else if |t| == 13 {
      assert t[..4][0] == t[0];
    }
  }

  lemma ValidStrippedWithPlus(t: string)
    requires |t| > 0 && t[0] == '+'
    ensures ValidStripped(t) <==> PhoneShape(AddCountryPrefix("00" + t[1..]))
  {
    var u := "00" + t[1..];
    assert !IsDigit(t[0]);
    if |t| == 8 {
      PrefixedShape(u);
      AllDigitsConcat("00", t[1..]);
    } else if |t| == 13 {
      assert u[..5] == "00" + t[1..4];
      assert u[5..] == t[4..];
      assert t[..4] == [t[0]] + t[1..4];
      assert CzPrefix == "00" + "420";
      assert u[..5][2..] == t[1..4];
      assert u[..5] == CzPrefix <==> t[1..4] == "420";
      assert t[..4] == "+420" <==> t[1..4] == "420";
    } else if |t| == 14 {
      assert t[..5][0] == t[0];
    }
  }

  /** Re-sanitizing the display form gives back the canonical form, for every input. */
  lemma FormattedRoundTrip(input: string)
    ensures Sanitized(Formatted(input)) == Sanitized(input)
  {
    if Validate(input) {
      SanitizedOfGroups(Plain(input));
    } else {
      SanitizedIdempotent(input);
    }
  }

  /** Nine digits in three space-separated groups sanitize to the prefixed nine digits. */
  lemma SanitizedOfGroups(p: string)
    requires |p| == NationalLength && AllDigits(p)
    ensures Sanitized(p[..3] + " " + p[3..6] + " " + p[6..]) == CzPrefix + p
  {
    var f := p[..3] + " " + p[3..6] + " " + p[6..];
    assert AllDigits(p[..3]) && AllDigits(p[3..6]) && AllDigits(p[6..]);
    DeleteGroups(PhoneSeparator, p[..3], p[3..6], p[6..]);
    assert p == p[..3] + p[3..6] + p[6..];
    assert Stripped(f) == p;
    assert RewriteLeadingPlus(p) == p by { assert IsDigit(p[0]); }
  }

  /** Deleting a class the single spaces belong to undoes the grouping of digits. */
  lemma DeleteGroups(cls: CharClass, a: string, b: string, c: string)
    requires AllDigits(a) && AllDigits(b) && AllDigits(c)
    requires InClass(cls, ' ')
    ensures Delete(cls, a + " " + b + " " + c) == a + b + c
  {
    assert Delete(cls, " ") == [];
    AllDigitsNoneIn(cls, a);
    AllDigitsNoneIn(cls, b);
    AllDigitsNoneIn(cls, c);
    DeleteFixpoint(cls, a);
    DeleteFixpoint(cls, b);
    DeleteFixpoint(cls, c);
    DeleteConcat(cls, a + " " + b + " ", c);
    DeleteConcat(cls, a + " " + b, " ");
    DeleteConcat(cls, a + " ", b);
    DeleteConcat(cls, a, " ");
  }

  /** The number `+420 123 456 789`, given as its four space-led pieces. The examples
      take their strings as parameters fixed by `requires` and assemble them from short
      pieces, because the verifier evaluates deletion on a long string literal slowly. */
  lemma ExampleInternational(a: string, b: string, c: string, d: string)
    requires a == "+420" && b == " 123" && c == " 456" && d == " 789"
    ensures Sanitized(a + b + c + d) == CzPrefix + "123456789"
    ensures Validate(a + b + c + d)
    ensures Plain(a + b + c + d) == "123456789"
    ensures Formatted(a + b + c + d) == "123 456 789"
  {
    var x := a + b + c + d;
    ExampleStripped(a, b, c, d);
    ExampleSanitized(x);
    ExampleViews(x);
  }

  lemma ExampleStripped(a: string, b: string, c: string, d: string)
    requires a == "+420" && b == " 123" && c == " 456" && d == " 789"
    ensures Stripped(a + b + c + d) == "+420" + "123456789"
  {
    ExampleStrippedPair(a, b, "+420", "123");
    ExampleStrippedPair(c, d, "456", "789");
    DeletePieces(PhoneSeparator, a + b, c + d, "+420" + "123", "456" + "789");
    assert a + b + (c + d) == a + b + c + d;
  }

  /** The pieces of the example: `+420`, kept as it is, and a space followed by three
      digits, which loses the space. */
  predicate ExamplePiece(s: string, t: string) {
    || (s == "+420" && t == "+420")
    || (s == " " + t && |t| == 3 && AllDigits(t))
  }

  lemma ExampleStrippedPair(a: string, b: string, ra: string, rb: string)
    requires ExamplePiece(a, ra) && ExamplePiece(b, rb)
    ensures Stripped(a + b) == ra + rb
  {
    ExampleStrippedPiece(a, ra);
    ExampleStrippedPiece(b, rb);
    DeletePieces(PhoneSeparator, a, b, ra, rb);
  }

  lemma ExampleStrippedPiece(s: string, t: string)
    requires ExamplePiece(s, t)
    ensures Stripped(s) == t
  {
    if s == "+420" {
      assert Delete(PhoneSeparator, "+420") == "+420";
    } else {
      DeleteKeepsDigits(PhoneSeparator, t);
    }
  }

  lemma ExampleSanitized(x: string)
    requires Stripped(x) == "+420" + "123456789"
    ensures Sanitized(x) == CzPrefix + "123456789"
    ensures Validate(x)
  {
    var t := Stripped(x);
    assert RewriteLeadingPlus(t) == "00" + t[1..];
    assert t[1..] == "420" + "123456789";
    assert CzPrefix + "123456789" == "00" + ("420" + "123456789");
    var s := Sanitized(x);
    assert s[..5] == CzPrefix && s[5..] == "123456789";
  }

  lemma ExampleViews(x: string)
    requires Sanitized(x) == CzPrefix + "123456789" && Validate(x)
    ensures Plain(x) == "123456789"
    ensures Formatted(x) == "123 456 789"
  {
    var p := Plain(x);
    assert p == "123456789" by {
      assert (CzPrefix + p)[5..] == p;
      assert (CzPrefix + "123456789")[5..] == "123456789";
    }
    ExampleGroups(p);
  }

  lemma ExampleGroups(p: string)
    requires p == "123456789"
    ensures p[..3] + " " + p[3..6] + " " + p[6..] == "123 456 789"
  {
    assert p[..3] == "123" && p[3..6] == "456" && p[6..] == "789";
  }

  // ---------------------------------------------------------------------------
  // The source as written

  /** The methods the classes of the hierarchy can be asked for. */
  datatype Method =
    | Construct | ToText | ValidateMethod | GetSanitized | GetFormatted | GetPlain | GetValue

  /** The methods a `Phone` object answers to: those `Fono` declares and `getPlain`. */
  const DeclaredMethods: set<Method> :=
    {Construct, ToText, ValidateMethod, GetSanitized, GetFormatted, GetPlain}

  /** Either a returned string or PHP's fatal error for a call to an undeclared method. */
  datatype Outcome = Returned(value: string) | UndefinedMethod(name: Method)

  /** `getSanitized` as written: its first statement calls `$this->getValue()`, which
      neither `Phone` nor `Fono` declares, so the call ends in an error before any
      sanitizing happens. Were the method declared to return the input, the result would
      be `Sanitized`. */
  function SanitizedAsWritten(input: string): (r: Outcome)
    ensures r.Returned? <==> GetValue in DeclaredMethods
    ensures r.Returned? ==> r.value == Sanitized(input)
  {
    if GetValue in DeclaredMethods then Returned(Sanitized(input))
    else UndefinedMethod(GetValue)
  }

  /** As written, sanitizing any phone number fails, `+420 123 456 789` included. */
  lemma AsWrittenFails(input: string)
    ensures SanitizedAsWritten(input) == UndefinedMethod(GetValue)
  {
  }
}
