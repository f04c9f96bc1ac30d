/** `Fono\Countries\CZ`: the older phone class. It sanitizes with the same three steps
    as `CZ\Phone` (reading the input field directly) and validates with the same
    pattern, but it keeps the base class's `getFormatted`, so its display form is the
    canonical form with no grouping. */
module CzLegacy {
  import opened Text
  import opened Patterns
  import Fono
  import CzPhone

  /** `CZ::PREG_FILTER`. */
  const Filter: Pattern := CzPhonePattern

  /** `getSanitized`: delete `[\s\.\-]` (a null replacement deletes), rewrite a leading
      `+` to `00`, and put `00420` in front of a nine-character result. It computes the
      same canonical form as the phone class for every input. */
  function Sanitized(input: string): (r: string)
    ensures r == CzPhone.Sanitized(input)
    ensures NoneIn(PhoneSeparator, r)
    ensures |r| != CzPhone.NationalLength
  {
    var stripped := Delete(PhoneSeparator, input);
    var international := CzPhone.RewriteLeadingPlus(stripped);
    if |international| == 9 then CzPrefix + international else international
  }

  /** `validate`, inherited: the phone pattern on this class's sanitized value. */
  predicate Validate(input: string) {
    Fono.Validate(Filter, Sanitized(input))
  }

  /** `getFormatted`, inherited from the base class: `$this->getSanitized()` binds late
      to this class's sanitizer, and its string is returned as it is.
      For a valid number that is the fourteen-character `00420…` form, never the
      grouped form the phone class displays. */
  function Formatted(input: string): (r: string)
    ensures NoneIn(Whitespace, r)
    ensures Sanitized(r) == r
    ensures Validate(input) ==> |r| == 14 && r != CzPhone.Formatted(input)
    ensures Sanitized(r) == Sanitized(input)
  {
    CzPhone.SanitizedIdempotent(input);
    Sanitized(input)
  }

  /** The legacy class accepts exactly the numbers the phone class accepts. */
  lemma ValidateAgreesWithPhone(input: string)
    ensures Validate(input) <==> CzPhone.Validate(input)
    ensures Validate(input) <==> CzPhone.ValidStripped(Delete(PhoneSeparator, input))
  {
    CzPhone.ValidIff(input);
  }

  /** Sanitizing a sanitized value gives it back. */
  lemma SanitizedIdempotent(input: string)
    ensures Sanitized(Sanitized(input)) == Sanitized(input)
  {
    CzPhone.SanitizedIdempotent(input);
  }
}
