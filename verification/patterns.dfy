/** The regular expressions of the identifier classes, each written out as a predicate
    over the whole string (every pattern is anchored with `^` and `$`). */
module Patterns {
  import opened Text

  /** The value a class's `PREG_FILTER` (or `getRegexFilter`) holds. */
  datatype Pattern =
    | EmptyPattern      // '' : the base class's filter
    | CzPhonePattern    // '/^00420[0-9]{9}$/'
    | CzPostalPattern   // '/^[0-9]{3}\s?[0-9]{2}$/'
    | CzBankPattern     // '/^([0-9]{0,6})?\-?([0-9]{1,10})\/([0-9]{4})$/'

  const CzPrefix: string := "00420"

  /** `00420` followed by exactly nine digits. */
  predicate PhoneShape(s: string) {
    |s| == 14 && s[..5] == CzPrefix && AllDigits(s[5..])
  }

  /** Three digits, an optional whitespace character, two digits. */
  predicate PostalShape(s: string) {
    || (|s| == 5 && AllDigits(s))
    || (|s| == 6 && AllDigits(s[..3]) && IsWs(s[3]) && AllDigits(s[4..]))
  }

  /** One way of reading `s` against the bank-account pattern: `s[..i]` is the optional
      prefix of up to six digits, `s[i..j]` the optional dash, `s[j..|s| - 5]` the
      account number of one to ten digits, then a slash and the four-digit bank code. */
  predicate BankSplit(s: string, i: int, j: int) {
    && 0 <= i <= j <= |s| - 5
    && i <= 6 && AllDigits(s[..i])
    && (j == i || (j == i + 1 && s[i] == '-'))
    && 1 <= |s| - 5 - j <= 10 && AllDigits(s[j..|s| - 5])
    && s[|s| - 5] == '/' && AllDigits(s[|s| - 4..])
  }

  /** The language of the bank-account pattern: some reading of `s` succeeds. */
  predicate BankShape(s: string) {
    exists i, j | 0 <= i <= j <= |s| :: BankSplit(s, i, j)
  }

  /** The part before the slash, decided directly: with a dash, the dash is the first
      one, preceded by at most six digits and followed by one to ten; without a dash,
      the prefix and the account number run together into one to sixteen digits. */
  predicate BankHead(h: string) {
    var k := IndexOf(h, '-');
    if k < |h| then
      k <= 6 && AllDigits(h[..k]) && AllDigits(h[k + 1..]) && 1 <= |h| - k - 1 <= 10
    else
      AllDigits(h) && 1 <= |h| <= 16
  }

  /** A decision procedure for the bank-account pattern: find the slash five from the
      end, check the bank code, and check the head. */
  predicate BankMatch(s: string) {
    |s| >= 5 && s[|s| - 5] == '/' && AllDigits(s[|s| - 4..]) && BankHead(s[..|s| - 5])
  }

  /** `preg_match(p, s)` read as a truth value. An empty pattern is rejected by PCRE
      with a warning and `preg_match` returns false, which the cast turns into false. */
  predicate Matches(p: Pattern, s: string) {
    match p
    case EmptyPattern => false
    case CzPhonePattern => PhoneShape(s)
    case CzPostalPattern => PostalShape(s)
    case CzBankPattern => BankShape(s)
  }

  /** The decision procedure accepts exactly the strings the pattern matches. */
  lemma BankMatchIsBankShape(s: string)
    ensures BankMatch(s) <==> BankShape(s)
  {
    if BankMatch(s) {
      BankMatchHasSplit(s);
    }
    if BankShape(s) {
      var i, j :| 0 <= i <= j <= |s| && BankSplit(s, i, j);
      BankSplitMatches(s, i, j);
    }
  }

  lemma BankMatchHasSplit(s: string)
    requires BankMatch(s)
    ensures BankShape(s)
  {
    var h := s[..|s| - 5];
    var k := IndexOf(h, '-');
    if k < |h| {
      assert h[k + 1..] == s[k + 1..|s| - 5];
      assert s[..k] == h[..k];
      assert BankSplit(s, k, k + 1);
    } else {
      var i := if |h| > 10 then |h| - 10 else 0;
      assert s[..i] == h[..i];
      assert s[i..|s| - 5] == h[i..];
      assert AllDigits(h[..i]) && AllDigits(h[i..]) by {
        forall m | 0 <= m < i ensures IsDigit(h[..i][m]) { assert h[..i][m] == h[m]; }
        forall m | 0 <= m < |h| - i ensures IsDigit(h[i..][m]) { assert h[i..][m] == h[i + m]; }
      }
      assert BankSplit(s, i, i);
    }
  }

  lemma BankSplitMatches(s: string, i: int, j: int)
    requires BankSplit(s, i, j)
    ensures BankMatch(s)
  {
    var h := s[..|s| - 5];
    var k := IndexOf(h, '-');
    assert h[..i] == s[..i];
    assert h[j..] == s[j..|s| - 5];
    if j == i + 1 {
      // No digit is a dash, so the first dash is the one at i.
      assert forall m :: 0 <= m < i ==> h[m] == s[..i][m];
      assert h[i] == '-';
      assert k == i;
    } else {
      assert h == h[..i] + h[i..];
      assert AllDigits(h) by {
        forall m | 0 <= m < |h| ensures IsDigit(h[m]) {
          if m < i { assert h[m] == h[..i][m]; } else { assert h[m] == h[i..][m - i]; }
        }
      }
      assert k == |h|;
    }
  }
}
