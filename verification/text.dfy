/** Character classes, deletion of a class, decimal digits and the few PHP string
    builtins (`substr`, `str_split`, `implode`) the identifier classes use.
    Strings are sequences of characters; every character counts as one unit of length. */
module Text {

  /** The characters PCRE's `\s` matches: space, tab, line feed, vertical tab,
      form feed and carriage return. */
  predicate IsWs(c: char) {
    c == ' ' || c == '\t' || c == '\n' || c == '\U{B}' || c == '\U{C}' || c == '\r'
  }

  predicate IsDigit(c: char) {
    '0' <= c <= '9'
  }

  predicate AllDigits(s: string) {
    forall i :: 0 <= i < |s| ==> IsDigit(s[i])
  }

  /** The two character classes the sources delete: `\s`, and `[\s\.\-]`. */
  datatype CharClass = Whitespace | PhoneSeparator

  predicate InClass(cls: CharClass, c: char) {
    match cls
    case Whitespace => IsWs(c)
    case PhoneSeparator => IsWs(c) || c == '.' || c == '-'
  }

  predicate NoneIn(cls: CharClass, s: string) {
    forall i :: 0 <= i < |s| ==> !InClass(cls, s[i])
  }

  /** `preg_replace` of a one-character class by the empty string: every character
      of the class disappears, every other character survives as often as it occurred. */
  function Delete(cls: CharClass, s: string): (r: string)
    ensures NoneIn(cls, r)
    ensures |r| <= |s|
  {
    if s == [] then []
    else if InClass(cls, s[0]) then Delete(cls, s[1..])
    else [s[0]] + Delete(cls, s[1..])
  }

  /** Every character outside the class survives deletion as often as it occurred. */
  lemma {:induction false} DeleteKeepsCounts(cls: CharClass, s: string, c: char)
    requires !InClass(cls, c)
    ensures multiset(Delete(cls, s))[c] == multiset(s)[c]
  {
    if s != [] {
      assert s == [s[0]] + s[1..];
      DeleteKeepsCounts(cls, s[1..], c);
    }
  }

  /** Deletion works piecewise, so the surviving characters keep their order. */
  lemma {:induction false} DeleteConcat(cls: CharClass, a: string, b: string)
    ensures Delete(cls, a + b) == Delete(cls, a) + Delete(cls, b)
  {
    if a == [] {
      assert a + b == b;
    } else {
      assert (a + b)[1..] == a[1..] + b;
      DeleteConcat(cls, a[1..], b);
    }
  }

  /** `DeleteConcat` for pieces whose deletions are already known. */
  lemma DeletePieces(cls: CharClass, a: string, b: string, ra: string, rb: string)
    requires Delete(cls, a) == ra && Delete(cls, b) == rb
    ensures Delete(cls, a + b) == ra + rb
  {
    DeleteConcat(cls, a, b);
  }

  /** A string is left unchanged by deletion exactly when it holds no character of the class. */
  lemma {:induction false} DeleteFixpoint(cls: CharClass, s: string)
    ensures Delete(cls, s) == s <==> NoneIn(cls, s)
  {
    if s != [] && NoneIn(cls, s) {
      assert NoneIn(cls, s[1..]) by {
        forall i | 0 <= i < |s[1..]| ensures !InClass(cls, s[1..][i]) {
          assert s[1..][i] == s[i + 1];
        }
      }
      DeleteFixpoint(cls, s[1..]);
    }
  }

  /** Deleting a class twice deletes nothing more. */
  lemma DeleteIdempotent(cls: CharClass, s: string)
    ensures Delete(cls, Delete(cls, s)) == Delete(cls, s)
  {
    DeleteFixpoint(cls, Delete(cls, s));
  }

  lemma AllDigitsConcat(a: string, b: string)
    ensures AllDigits(a + b) <==> AllDigits(a) && AllDigits(b)
  {
    if AllDigits(a) && AllDigits(b) {
      forall i | 0 <= i < |a + b| ensures IsDigit((a + b)[i]) {
        if i < |a| { assert (a + b)[i] == a[i]; } else { assert (a + b)[i] == b[i - |a|]; }
      }
    }
    if AllDigits(a + b) {
      forall i | 0 <= i < |a| ensures IsDigit(a[i]) { assert (a + b)[i] == a[i]; }
      forall i | 0 <= i < |b| ensures IsDigit(b[i]) { assert (a + b)[|a| + i] == b[i]; }
    }
  }

  lemma AllDigitsNoneIn(cls: CharClass, s: string)
    requires AllDigits(s)
    ensures NoneIn(cls, s)
  {
  }

  /** Digits survive deletion of either class; a single space in front of them does not. */
  lemma DeleteKeepsDigits(cls: CharClass, s: string)
    requires AllDigits(s)
    ensures Delete(cls, s) == s
    ensures Delete(cls, " " + s) == s
  {
    AllDigitsNoneIn(cls, s);
    DeleteFixpoint(cls, s);
    DeletePieces(cls, " ", s, [], s);
  }

  /** Index of the first occurrence of `c`, or `|s|` when there is none. */
  function IndexOf(s: string, c: char): (k: nat)
    ensures k <= |s|
    ensures k < |s| ==> s[k] == c
    ensures forall i :: 0 <= i < k ==> s[i] != c
  {
    if s == [] then 0
    else if s[0] == c then 0
    else 1 + IndexOf(s[1..], c)
  }

  // ---------------------------------------------------------------------------
  // Decimal numbers

  function DigitValue(c: char): nat
    requires IsDigit(c)
  {
    c as int - '0' as int
  }

  function DigitChar(d: nat): char
    requires d < 10
  {
    ('0' as int + d) as char
  }

  function Pow10(k: nat): (p: nat)
    ensures p >= 1
  {
    if k == 0 then 1 else 10 * Pow10(k - 1)
  }

  /** The value of a string of decimal digits, most significant digit first. */
  function DigitsValue(s: string): (n: nat)
    requires AllDigits(s)
    ensures n < Pow10(|s|)
    ensures |s| > 0 && s[0] != '0' ==> n >= Pow10(|s| - 1)
  {
    if s == [] then 0
    else
      var d, p := DigitValue(s[0]), Pow10(|s| - 1);
      ScaledDigitBounds(d, p);
      d * p + DigitsValue(s[1..])
  }

  lemma ScaledDigitBounds(d: nat, p: nat)
    requires d < 10
    ensures d * p + p <= 10 * p
    ensures d >= 1 ==> d * p >= p
  {
  }

  /** PHP's rendering of a non-negative integer: its decimal digits, without leading zeros. */
  function Decimal(n: nat): (r: string)
    ensures AllDigits(r)
    ensures |r| >= 1
    ensures r[0] == '0' <==> n == 0
  {
    if n < 10 then [DigitChar(n)] else Decimal(n / 10) + [DigitChar(n % 10)]
  }

  function StripLeadingZeros(s: string): (r: string)
    ensures |r| <= |s|
  {
    if |s| > 0 && s[0] == '0' then StripLeadingZeros(s[1..]) else s
  }

  /** The digits of a number written without leading zeros; all zeros read as "0". */
  function CanonicalDigits(s: string): (r: string)
    ensures 1 <= |r|
    ensures |s| >= 1 ==> |r| <= |s|
  {
    var t := StripLeadingZeros(s);
    if t == [] then "0" else t
  }

  lemma {:induction false} DigitsValueSnoc(s: string, c: char)
    requires AllDigits(s) && IsDigit(c)
    ensures AllDigits(s + [c])
    ensures DigitsValue(s + [c]) == DigitsValue(s) * 10 + DigitValue(c)
  {
    assert AllDigits(s + [c]) by {
      forall i | 0 <= i < |s + [c]| ensures IsDigit((s + [c])[i]) {
        if i < |s| { assert (s + [c])[i] == s[i]; }
      }
    }
    if s != [] {
      assert (s + [c])[1..] == s[1..] + [c];
      DigitsValueSnoc(s[1..], c);
      var d, p, rest := DigitValue(s[0]), Pow10(|s| - 1), DigitsValue(s[1..]);
      assert (s + [c])[0] == s[0];
      assert DigitsValue(s + [c]) == d * Pow10(|s|) + DigitsValue(s[1..] + [c]);
      assert Pow10(|s|) == 10 * p;
      ShiftDigit(d, p, rest, DigitValue(c));
    }
  }

  lemma ShiftDigit(d: nat, p: nat, rest: nat, c: nat)
    ensures d * (10 * p) + (rest * 10 + c) == (d * p + rest) * 10 + c
  {
  }

  /** Rendering the value of a digit string with no leading zero gives the string back. */
  lemma {:induction false} DecimalOfDigits(s: string)
    requires AllDigits(s) && |s| >= 1 && s[0] != '0'
    ensures Decimal(DigitsValue(s)) == s
  {
    if |s| == 1 {
      assert DigitsValue(s) == DigitValue(s[0]);
    } else {
      var p, c := s[..|s| - 1], s[|s| - 1];
      assert s == p + [c];
      assert AllDigits(p) by {
        forall i | 0 <= i < |p| ensures IsDigit(p[i]) { assert p[i] == s[i]; }
      }
      DigitsValueSnoc(p, c);
      var n := DigitsValue(s);
      assert n == DigitsValue(p) * 10 + DigitValue(c);
      assert n >= 10 by { assert DigitsValue(p) >= Pow10(|p| - 1) >= 1; }
      assert n / 10 == DigitsValue(p) && n % 10 == DigitValue(c);
      DecimalOfDigits(p);
    }
  }

  /** Leading zeros add nothing to the value of a digit string. */
  lemma {:induction false} StripLeadingZerosValue(s: string)
    requires AllDigits(s)
    ensures AllDigits(StripLeadingZeros(s))
    ensures DigitsValue(StripLeadingZeros(s)) == DigitsValue(s)
  {
    if |s| > 0 && s[0] == '0' {
      StripLeadingZerosValue(s[1..]);
    }
  }

  lemma {:induction false} StripLeadingZerosShape(s: string)
    ensures var t := StripLeadingZeros(s); t == [] || t[0] != '0'
  {
    if |s| > 0 && s[0] == '0' {
      StripLeadingZerosShape(s[1..]);
    }
  }

  /** What PHP's `(int)` cast followed by string conversion does to a string of digits
      small enough for a 64-bit integer: it drops the leading zeros. */
  lemma {:induction false} DecimalOfDigitsValue(s: string)
    requires AllDigits(s)
    ensures Decimal(DigitsValue(s)) == CanonicalDigits(s)
  {
    StripLeadingZerosValue(s);
    StripLeadingZerosShape(s);
    var t := StripLeadingZeros(s);
    if t != [] {
      DecimalOfDigits(t);
    }
  }

  // ---------------------------------------------------------------------------
  // PHP string builtins, for non-negative arguments

  /** `substr(s, start, length)` as PHP 8 computes it: an empty string when `start`
      lies past the end, otherwise at most `length` characters from `start`. */
  function Substr(s: string, start: nat, length: nat): (r: string)
    ensures |r| <= length
    ensures start < |s| ==> r == s[start..if start + length < |s| then start + length else |s|]
    ensures start >= |s| ==> r == []
  {
    if start >= |s| then []
    else if start + length < |s| then s[start..start + length]
    else s[start..]
  }

  /** Two adjacent `substr` calls read one stretch of the string: the first `a`
      characters followed by the next `b` are the first `a + b` characters, or all of
      them when the string is shorter. */
  lemma SubstrAdjacent(s: string, a: nat, b: nat)
    ensures Substr(s, 0, a) + Substr(s, a, b) == s[..if a + b < |s| then a + b else |s|]
  {
    if a < |s| {
      var e := if a + b < |s| then a + b else |s|;
      assert Substr(s, 0, a) == s[..a];
      assert s[..a] + s[a..e] == s[..e];
    } else {
      assert Substr(s, 0, a) == s;
    }
  }

  /** `str_split(s, n)`: consecutive pieces of `n` characters, the last one possibly shorter. */
  function Chunks(s: string, n: nat): (parts: seq<string>)
    requires n > 0
    ensures |parts| >= 1
    decreases |s|
  {
    if |s| <= n then [s] else [s[..n]] + Chunks(s[n..], n)
  }

  /** `implode(sep, parts)`. */
  function Join(sep: char, parts: seq<string>): string {
    if parts == [] then []
    else if |parts| == 1 then parts[0]
    else parts[0] + [sep] + Join(sep, parts[1..])
  }
}
