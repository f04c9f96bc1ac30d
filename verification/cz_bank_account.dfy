/** `Fono\Countries\CZ\BankAccount`: a Czech bank account number, an optional prefix
    and dash, the account number, a slash and the four-digit bank code. The class adds
    only `getRegexFilter`; sanitizing and formatting are the base class's. */
module CzBankAccount {
  import opened Text
  import opened Patterns
  import Fono

  /** The filter `validate` reads: the class declares none, so the base class's empty one. */
  const Filter: Pattern := Fono.Filter

  /** `getRegexFilter`: the bank-account pattern. It matches exactly the strings the
      decision procedure accepts: a slash five from the end, four digits after it, and
      before it either up to six digits, the first dash and one to ten digits, or one
      to sixteen digits with no dash. */
  function RegexFilter(): (p: Pattern)
    ensures forall s :: Matches(p, s) <==> BankShape(s)
    ensures forall s :: Matches(p, s) <==> BankMatch(s)
  {
    forall s ensures BankShape(s) <==> BankMatch(s) {
      BankMatchIsBankShape(s);
    }
    CzBankPattern
  }

  /** `validate` as written: the inherited filter is the empty pattern, which PCRE
      rejects, so no account number ever validates. */
  predicate ValidateAsWritten(input: string) {
    Fono.Validate(Filter, Fono.Sanitized(input))
  }

  /** `validate` with the class's own pattern: the whitespace-free value is an optional
      prefix of up to six digits, an optional dash, one to ten digits, a slash and four
      digits. */
  predicate Validate(input: string) {
    Fono.Validate(RegexFilter(), Fono.Sanitized(input))
  }

  /** `getFormatted`, inherited: the whitespace-free value. */
  function Formatted(input: string): (r: string)
    ensures NoneIn(Whitespace, r)
    ensures Fono.Sanitized(r) == Fono.Sanitized(input)
    ensures Validate(r) <==> Validate(input)
  {
    Fono.Formatted(input)
  }

  /** As written, every input is rejected. */
  lemma AsWrittenRejectsAll(input: string)
    ensures !ValidateAsWritten(input)
  {
  }

  /** With its own pattern the class accepts exactly what the decision procedure accepts. */
  lemma ValidateIff(input: string)
    ensures Validate(input) <==> BankMatch(Fono.Sanitized(input))
  {
    BankMatchIsBankShape(Fono.Sanitized(input));
  }

  /** Without a dash, the prefix and the account number cannot be told apart: a
      dash-free value is valid exactly when it is one to sixteen digits, a slash and
      four digits. */
  lemma DashFree(input: string)
    requires '-' !in Fono.Sanitized(input)
    ensures var s := Fono.Sanitized(input);
      Validate(input) <==>
        && |s| >= 5 && s[|s| - 5] == '/' && AllDigits(s[|s| - 4..])
        && AllDigits(s[..|s| - 5]) && 1 <= |s| - 5 <= 16
  {
    var s := Fono.Sanitized(input);
    ValidateIff(input);
    if |s| >= 5 {
      var h := s[..|s| - 5];
      assert forall i :: 0 <= i < |h| ==> h[i] != '-' by {
        forall i | 0 <= i < |h| ensures h[i] != '-' {
          assert h[i] == s[i] && s[i] in s;
        }
      }
      assert IndexOf(h, '-') == |h|;
    }
  }

  // ---------------------------------------------------------------------------
  // Examples

  /** `19-2000145399/0800` and `2000145399/0800` match; `2000145399` does not. */
  lemma ExamplePattern(a: string, b: string, c: string)
    requires a == "19-2000145399/0800" && b == "2000145399/0800" && c == "2000145399"
    ensures Validate(a) && Validate(b) && !Validate(c)
    ensures !ValidateAsWritten(a)
  {
    ExampleWhitespaceFree(a, b, c);
    ExampleWithPrefix(a);
    ExampleWithoutPrefix(b);
    ValidateIff(a);
    ValidateIff(b);
    ValidateIff(c);
  }

  lemma ExampleWhitespaceFree(a: string, b: string, c: string)
    requires a == "19-2000145399/0800" && b == "2000145399/0800" && c == "2000145399"
    ensures Fono.Sanitized(a) == a && Fono.Sanitized(b) == b && Fono.Sanitized(c) == c
  {
    assert NoneIn(Whitespace, a) && NoneIn(Whitespace, b) && NoneIn(Whitespace, c);
  }

  lemma ExampleWithPrefix(a: string)
    requires a == "19-2000145399/0800"
    ensures BankMatch(a)
  {
    var h := a[..|a| - 5];
    assert h == "19-2000145399";
    assert h[0] != '-' && h[1] != '-' && h[2] == '-';
    assert IndexOf(h, '-') == 2;
    assert h[3..] == "2000145399";
    assert a[|a| - 4..] == "0800";
  }

  lemma ExampleWithoutPrefix(b: string)
    requires b == "2000145399/0800"
    ensures BankMatch(b)
  {
    var h := b[..|b| - 5];
    assert h == "2000145399";
    assert IndexOf(h, '-') == |h|;
    assert b[|b| - 4..] == "0800";
  }

  /** Spaces around the dash and slash (`19 - `, `2000145399`, ` / `, `0800`) are deleted
      before matching, and the display form is the same whitespace-free string. The
      pieces are parameters fixed by `requires`, which keeps the verifier from evaluating
      deletion on one long literal. */
  lemma ExampleSpaced(a: string, b: string, c: string, d: string)
    requires a == "19 - " && b == "2000145399" && c == " / " && d == "0800"
    ensures Fono.Sanitized(a + b + c + d) == "19-2000145399/0800"
    ensures Formatted(a + b + c + d) == "19-2000145399/0800"
    ensures Validate(a + b + c + d)
  {
    ExampleSpacedDeleted(a, b, c, d);
    ExampleWithPrefix("19-2000145399/0800");
    ValidateIff(a + b + c + d);
  }

  lemma ExampleSpacedDeleted(a: string, b: string, c: string, d: string)
    requires a == "19 - " && b == "2000145399" && c == " / " && d == "0800"
    ensures Delete(Whitespace, a + b + c + d) == "19-2000145399/0800"
  {
    ExampleSpacedHead(a, b);
    ExampleSpacedTail(c, d);
    DeletePieces(Whitespace, a + b, c + d, "19-" + b, "/" + d);
    assert a + b + (c + d) == a + b + c + d;
    assert "19-" + b + ("/" + d) == "19-2000145399/0800";
  }

  lemma ExampleSpacedHead(a: string, b: string)
    requires a == "19 - " && b == "2000145399"
    ensures Delete(Whitespace, a + b) == "19-" + b
  {
    ExampleSpacedPrefix(a);
    DeleteKeepsDigits(Whitespace, b);
    DeletePieces(Whitespace, a, b, "19-", b);
  }

  lemma ExampleSpacedTail(c: string, d: string)
    requires c == " / " && d == "0800"
    ensures Delete(Whitespace, c + d) == "/" + d
  {
    assert Delete(Whitespace, " / ") == "/";
    DeleteKeepsDigits(Whitespace, d);
    DeletePieces(Whitespace, c, d, "/", d);
  }

  lemma ExampleSpacedPrefix(a: string)
    requires a == "19 - "
    ensures Delete(Whitespace, a) == "19-"
  {
    assert Delete(Whitespace, "19 - ") == "19-";
  }
}
