/** The abstract base class `Fono`: it holds the raw input, sanitizes by deleting
    whitespace, formats as the sanitized string and validates the sanitized string
    against the class's filter. Each view is a pure function of the raw input. */
module Fono {
  import opened Text
  import opened Patterns

  /** `Fono::PREG_FILTER`, inherited by every class that does not declare its own. */
  const Filter: Pattern := EmptyPattern

  /** `getSanitized`: the input with every whitespace character deleted and every
      other character kept, in order. */
  function Sanitized(input: string): (r: string)
    ensures NoneIn(Whitespace, r)
    ensures |r| <= |input|
    ensures r == input <==> NoneIn(Whitespace, input)
  {
    DeleteFixpoint(Whitespace, input);
    Delete(Whitespace, input)
  }

  /** `getFormatted`: the display form is the canonical form, so sanitizing it again
      changes nothing. */
  function Formatted(input: string): (r: string)
    ensures NoneIn(Whitespace, r)
    ensures Sanitized(r) == Sanitized(input)
  {
    Sanitized(input)
  }

  /** `validate`: the class's filter applied to whatever the class's `getSanitized`
      produced, never to the raw input. */
  predicate Validate(filter: Pattern, sanitized: string) {
    Matches(filter, sanitized)
  }

  /** Sanitizing a sanitized value gives it back. */
  lemma SanitizedIdempotent(input: string)
    ensures Sanitized(Sanitized(input)) == Sanitized(input)
  {
    DeleteIdempotent(Whitespace, input);
  }

  /** Every character other than whitespace survives sanitizing as often as it occurred. */
  lemma SanitizedKeepsCounts(input: string, c: char)
    requires !IsWs(c)
    ensures multiset(Sanitized(input))[c] == multiset(input)[c]
  {
    DeleteKeepsCounts(Whitespace, input, c);
  }

  /** Sanitizing works piecewise: what survives of `a + b` is what survives of `a`
      followed by what survives of `b`. */
  lemma SanitizedConcat(a: string, b: string)
    ensures Sanitized(a + b) == Sanitized(a) + Sanitized(b)
  {
    DeleteConcat(Whitespace, a, b);
  }
}
