/** `Fono\Countries\CZ\PostalCode`: a Czech postal code, five digits shown as a block
    of three and a block of two. It keeps the base class's sanitizer, which deletes all
    whitespace, so the optional whitespace the pattern allows between the blocks can
    never be present when the pattern is applied. */
module CzPostalCode {
  import opened Text
  import opened Patterns
  import Fono

  /** `PostalCode::PREG_FILTER`. */
  const Filter: Pattern := CzPostalPattern

  /** `validate`, inherited: the postal pattern on the whitespace-free value. */
  predicate Validate(input: string) {
    Fono.Validate(Filter, Fono.Sanitized(input))
  }

  /** A code is valid exactly when its whitespace-free form is five digits; the branch
      of the pattern with a separator never applies. */
  lemma ValidIffFiveDigits(input: string)
    ensures var s := Fono.Sanitized(input);
      Validate(input) <==> |s| == 5 && AllDigits(s)
    ensures var s := Fono.Sanitized(input);
      !(|s| == 6 && IsWs(s[3]))
  {
  }

  /** `getFormatted`: `substr(s, 0, 3)` and `substr(s, 3, 2)` of the sanitized value
      joined by one space. At most five characters of the value survive, in order, and
      the inserted space sits right after the first block. */
  function Formatted(input: string): (r: string)
    ensures var s := Fono.Sanitized(input);
      var n, k := if |s| < 5 then |s| else 5, if |s| < 3 then |s| else 3;
      && |r| == n + 1
      && r[k] == ' '
      && r[..k] == s[..k] && r[k + 1..] == s[k..n]
    ensures Validate(input) ==>
      var s := Fono.Sanitized(input); r == s[..3] + " " + s[3..]
  {
    var s := Fono.Sanitized(input);
    var head, tail := Substr(s, 0, 3), Substr(s, 3, 2);
    var n, k := if |s| < 5 then |s| else 5, if |s| < 3 then |s| else 3;
    assert head == s[..k] && tail == s[k..n];
    assert [head, tail][1..] == [tail];
    assert Join(' ', [head, tail]) == head + " " + tail;
    Join(' ', [head, tail])
  }

  /** Re-sanitizing the display form gives the canonical form back exactly when that
      form has at most five characters: anything beyond the fifth is dropped. */
  lemma FormattedRoundTrip(input: string)
    ensures Fono.Sanitized(Formatted(input)) == Fono.Sanitized(input)
        <==> |Fono.Sanitized(input)| <= 5
  {
    var s := Fono.Sanitized(input);
    var r := Formatted(input);
    var n, k := if |s| < 5 then |s| else 5, if |s| < 3 then |s| else 3;
    assert r == s[..k] + " " + s[k..n] by {
      assert r == r[..k] + [r[k]] + r[k + 1..];
    }
    assert NoneIn(Whitespace, s[..k]) && NoneIn(Whitespace, s[k..n]) by {
      forall i | 0 <= i < k ensures !IsWs(s[..k][i]) { assert s[..k][i] == s[i]; }
      forall i | 0 <= i < n - k ensures !IsWs(s[k..n][i]) { assert s[k..n][i] == s[k + i]; }
    }
    DeleteFixpoint(Whitespace, s[..k]);
    DeleteFixpoint(Whitespace, s[k..n]);
    DeletePieces(Whitespace, s[..k], " ", s[..k], []);
    DeletePieces(Whitespace, s[..k] + " ", s[k..n], s[..k], s[k..n]);
    assert Fono.Sanitized(r) == s[..n] by {
      SubstrAdjacent(s, 3, 2);
      assert Substr(s, 0, 3) == s[..k] && Substr(s, 3, 2) == s[k..n];
    }
    if |s| > 5 {
      assert |s[..n]| != |s|;
    }
  }

  /** The display form of a valid code is again a valid code, with the same canonical form. */
  lemma FormattedValidates(input: string)
    requires Validate(input)
    ensures Validate(Formatted(input))
    ensures Fono.Sanitized(Formatted(input)) == Fono.Sanitized(input)
  {
    FormattedRoundTrip(input);
  }

  /** `getPlain`: the sanitized value with whitespace deleted (again), cast to an integer
      and back to a string. For a string of digits short enough for a 64-bit integer the
      cast reads its decimal value, so the result is the digits without leading zeros. */
  function Plain(input: string): (r: string)
    requires AllDigits(Fono.Sanitized(input)) && |Fono.Sanitized(input)| <= 18
    ensures r == CanonicalDigits(Fono.Sanitized(input))
    ensures Validate(input) ==> AllDigits(r) && 1 <= |r| <= 5
  {
    var s := Fono.Sanitized(input);
    var digits := Delete(Whitespace, s);
    Fono.SanitizedIdempotent(input);
    DecimalOfDigitsValue(s);
    Decimal(DigitsValue(digits))
  }

  // ---------------------------------------------------------------------------
  // Examples

  /** `110 00`, `11000` and ` 1 1000` all sanitize to `11000` and validate. Like the other
      examples, the strings are parameters fixed by `requires`, so that the verifier
      works on short pieces rather than evaluating whole literals. */
  lemma ExampleSpacingIgnored(x: string, y: string, z: string)
    requires x == "110 00" && y == "11000" && z == " 1 1000"
    ensures Fono.Sanitized(x) == "11000" && Validate(x)
    ensures Fono.Sanitized(y) == "11000" && Validate(y)
    ensures Fono.Sanitized(z) == "11000" && Validate(z)
  {
    ExampleBlocks(x, "110", "00");
    DeleteKeepsDigits(Whitespace, y);
    ExampleLeadingSpaces(z, "1", "1000");
    ValidIffFiveDigits(x);
    ValidIffFiveDigits(y);
    ValidIffFiveDigits(z);
  }

  /** A code written as two digit blocks with one space between: the space is dropped. */
  lemma ExampleBlocks(x: string, u: string, v: string)
    requires AllDigits(u) && AllDigits(v) && x == u + " " + v
    ensures Fono.Sanitized(x) == u + v
  {
    DeleteKeepsDigits(Whitespace, u);
    DeleteKeepsDigits(Whitespace, v);
    DeletePieces(Whitespace, u, " " + v, u, v);
    assert u + (" " + v) == x;
  }

  /** ` 1 1000`: each block's leading space is dropped. */
  lemma ExampleLeadingSpaces(z: string, u: string, v: string)
    requires u == "1" && v == "1000" && z == " " + u + " " + v
    ensures Fono.Sanitized(z) == u + v
  {
    DeleteKeepsDigits(Whitespace, u);
    DeleteKeepsDigits(Whitespace, v);
    DeletePieces(Whitespace, " " + u, " " + v, u, v);
    assert " " + u + (" " + v) == z;
  }

  /** `110 00` displays as `110 00` and has the plain form `11000`. */
  lemma ExamplePlainAndFormatted(x: string)
    requires x == "110 00"
    ensures Fono.Sanitized(x) == "11000"
    ensures Formatted(x) == "110 00"
    ensures Plain(x) == "11000"
  {
    ExampleBlocks(x, "110", "00");
    ValidIffFiveDigits(x);
    ExampleFormattedBlocks(x, Fono.Sanitized(x));
    ExampleNoLeadingZero(Fono.Sanitized(x));
  }

  lemma ExampleFormattedBlocks(x: string, s: string)
    requires x == "110 00" && s == "11000"
    ensures s[..3] + " " + s[3..] == x
  {
    assert s[..3] == "110" && s[3..] == "00";
  }

  lemma ExampleNoLeadingZero(s: string)
    requires s == "11000"
    ensures CanonicalDigits(s) == s
  {
    assert StripLeadingZeros(s) == s;
  }

  /** `012 34` loses its leading zero in the plain form. */
  lemma ExampleLeadingZero(w: string)
    requires w == "012 34"
    ensures Fono.Sanitized(w) == "01234"
    ensures Plain(w) == "1234"
  {
    ExampleBlocks(w, "012", "34");
    var s := Fono.Sanitized(w);
    assert s[1..] == "1234";
    assert StripLeadingZeros(s) == StripLeadingZeros("1234") == "1234";
  }
}
