/** An identifier object seen from the base class: the concrete class it was built as
    and the string it was built from. `$this->getSanitized()` and `static::PREG_FILTER`
    bind late, so every view dispatches on the class. */
module Identifiers {
  import opened Text
  import opened Patterns
  import Fono
  import CzPhone
  import CzLegacy
  import CzPostalCode
  import CzBankAccount

  /** The concrete classes of the hierarchy (`Fono` itself is abstract). */
  datatype Kind = Cz | Phone | PostalCode | BankAccount

  /** An object: its class and the raw string given to its constructor. The views below
      are functions of both and never change either, so the raw value stays what the
      constructor received and `__toString` returns it. */
  datatype Identifier = Identifier(kind: Kind, input: string)

  /** The filter `validate` applies, per class; for the bank account, the class's own
      `getRegexFilter` (the inherited empty filter is modelled in `CzBankAccount`). */
  function Filter(kind: Kind): Pattern {
    match kind
    case Cz => CzLegacy.Filter
    case Phone => CzPhone.Filter
    case PostalCode => CzPostalCode.Filter
    case BankAccount => CzBankAccount.RegexFilter()
  }

  /** The string of `getSanitized`, per class. */
  function SanitizedText(kind: Kind, input: string): string {
    match kind
    case Cz => CzLegacy.Sanitized(input)
    case Phone => CzPhone.Sanitized(input)
    case PostalCode => Fono.Sanitized(input)
    case BankAccount => Fono.Sanitized(input)
  }

  /** `getSanitized`: `new static(...)`, an object of the same class holding the canonical
      string, which is its own canonical form. */
  function Sanitized(id: Identifier): (r: Identifier)
    ensures r.kind == id.kind
    ensures r.input == SanitizedText(id.kind, id.input)
    ensures SanitizedText(r.kind, r.input) == r.input
  {
    SanitizedTextIdempotent(id.kind, id.input);
    Identifier(id.kind, SanitizedText(id.kind, id.input))
  }

  /** `getFormatted`, per class. */
  function Formatted(id: Identifier): string {
    match id.kind
    case Cz => CzLegacy.Formatted(id.input)
    case Phone => CzPhone.Formatted(id.input)
    case PostalCode => CzPostalCode.Formatted(id.input)
    case BankAccount => CzBankAccount.Formatted(id.input)
  }

  /** `validate`: the class's filter on the class's sanitized string. */
  predicate Validate(id: Identifier) {
    Fono.Validate(Filter(id.kind), SanitizedText(id.kind, id.input))
  }

  lemma SanitizedTextIdempotent(kind: Kind, input: string)
    ensures SanitizedText(kind, SanitizedText(kind, input)) == SanitizedText(kind, input)
  {
    match kind
    case Cz => CzLegacy.SanitizedIdempotent(input);
    case Phone => CzPhone.SanitizedIdempotent(input);
    case PostalCode => Fono.SanitizedIdempotent(input);
    case BankAccount => Fono.SanitizedIdempotent(input);
  }

  /** Validity is a property of the canonical form: an object and the object its
      `getSanitized` returns are valid together, for every class. */
  lemma ValidateSeesSanitized(id: Identifier)
    ensures Validate(id) <==> Validate(Sanitized(id))
  {
    SanitizedTextIdempotent(id.kind, id.input);
  }

  /** Formatting only adds separators: re-sanitizing the display form restores the
      canonical form for every class, except that a postal code longer than five
      characters loses its tail. */
  lemma FormattedRoundTrip(id: Identifier)
    ensures var s := SanitizedText(id.kind, id.input);
      SanitizedText(id.kind, Formatted(id)) == s <==> (id.kind == PostalCode ==> |s| <= 5)
  {
    match id.kind
    case Cz =>
    case Phone => CzPhone.FormattedRoundTrip(id.input);
    case PostalCode => CzPostalCode.FormattedRoundTrip(id.input);
    case BankAccount =>
  }

  /** The display form of a valid identifier is valid again; outside postal codes the
      display form is valid exactly when the identifier is. */
  lemma FormattedValidates(id: Identifier)
    ensures Validate(id) ==> Validate(Identifier(id.kind, Formatted(id)))
    ensures id.kind != PostalCode ==>
      (Validate(Identifier(id.kind, Formatted(id))) <==> Validate(id))
  {
    FormattedRoundTrip(id);
    if id.kind == PostalCode && Validate(id) {
      CzPostalCode.FormattedValidates(id.input);
    }
  }

  /** A postal code whose display form validates though the code itself does not:
      `123456` keeps only its first five digits. */
  lemma PostalFormattedMayValidate(x: string)
    requires x == "123456"
    ensures !Validate(Identifier(PostalCode, x))
    ensures Validate(Identifier(PostalCode, Formatted(Identifier(PostalCode, x))))
  {
    var s := Fono.Sanitized(x);
    assert s == x by { DeleteFixpoint(Whitespace, x); }
    CzPostalCode.ValidIffFiveDigits(x);
    var f := CzPostalCode.Formatted(x);
    assert s[..3] == "123" && s[3..5] == "45";
    assert f == f[..3] + [f[3]] + f[4..];
    assert f == "123 45";
    PostalFormattedDigits(f);
    CzPostalCode.ValidIffFiveDigits(f);
  }

  lemma PostalFormattedDigits(f: string)
    requires f == "123 45"
    ensures Fono.Sanitized(f) == "12345"
  {
    assert Delete(Whitespace, "123 45") == "12345";
  }
}
