# fono in Dafny

A model of the `fono` PHP library, which checks and formats identifiers: a raw string goes in,
and each identifier class exposes
- `getSanitized`, the canonical string;
- `getFormatted`, the display string;
- `getPlain`, the national or plain form, on the classes that declare one;
- `validate`, an anchored regular expression matched against the canonical string.

The model covers:
- the abstract base class `Fono`;
- the Czech phone class `CZ\Phone` and its older twin `Countries\CZ`;
- the Czech postal code `CZ\PostalCode`;
- the Czech bank account `CZ\BankAccount`.

Each view is a pure function of the raw string given to the constructor. An `Identifiers.Identifier`
is a pair of the concrete class and that string. No view changes the string, so `__toString`
returns it unchanged.

Modules, in dependency order:

| file | module | contents |
|---|---|---|
| text.dfy | `Text` | PCRE `\s` (`IsWs`), the deleted character classes, `Delete` (what `preg_replace` with an empty replacement does), digits and decimal values, and the PHP builtins `substr`, `str_split` and `implode` |
| patterns.dfy | `Patterns` | each regular expression as a predicate over the whole string; the bank pattern is both a literal reading (`BankShape`) and a decision procedure (`BankMatch`), proved equal |
| fono.dfy | `Fono` | the base class |
| cz_phone.dfy | `CzPhone` | `CZ\Phone`, including the as-written `getSanitized` |
| cz_legacy.dfy | `CzLegacy` | `Countries\CZ` |
| cz_postal_code.dfy | `CzPostalCode` | `CZ\PostalCode` |
| cz_bank_account.dfy | `CzBankAccount` | `CZ\BankAccount`, with the inherited and the intended filter |
| identifiers.dfy | `Identifiers` | late static binding: every view dispatched on the concrete class, using the corrected phone and bank-account classes (see Findings) |

`IsWs` is the PCRE `\s` class: space, tab, line feed, vertical tab, form feed and carriage return.
Strings are sequences of characters, and `strlen`/`substr` count characters.

The postal code's `getSanitized` is the inherited one, which deletes every whitespace
character. The `\s?` of `PostalCode::PREG_FILTER` suggests a kept separator between the digit
blocks, but the sanitizer has removed it before the pattern is applied. The model follows the
code: a postal code is valid exactly when its whitespace-free form is five digits.

## Model

| member | source | states |
|---|---|---|
| Text.Delete | src/Fono.php:31 | deleting a character class leaves no character of it, and never lengthens the string |
| Text.DeleteKeepsCounts | src/Fono.php:31 | every character outside the class occurs in the result exactly as often as in the input |
| Text.DeleteConcat | src/Fono.php:31 | deletion works piecewise: deleting from `a + b` is deleting from `a`, then from `b`, concatenated, so the kept characters stay in order |
| Text.DeleteFixpoint | src/Fono.php:31 | deletion leaves a string unchanged exactly when it holds no character of the class |
| Text.DecimalOfDigitsValue | src/Countries/CZ/PostalCode.php:11 | casting a digit string to an integer and back gives the digits without leading zeros, or `0` for all zeros, when the value fits in a 64-bit integer (the lemma works on unbounded values; `CzPostalCode.Plain` admits at most eighteen digits) |
| Text.SubstrAdjacent | src/Countries/CZ/PostalCode.php:17-18 | `substr(s, 0, a)` followed by `substr(s, a, b)` is the first `a + b` characters of `s`, or all of `s` when it is shorter |
| Patterns.BankMatchIsBankShape | src/Countries/CZ/BankAccount.php:9 | the decision procedure accepts exactly the strings the bank-account pattern matches: optional 0–6 digits, optional dash, 1–10 digits, slash, 4 digits |
| Fono.Sanitized | src/Fono.php:26-34 | the result holds no whitespace and is no longer than the input; it equals the input exactly when the input has no whitespace |
| Fono.SanitizedIdempotent | src/Fono.php:28-33 | sanitizing a sanitized value gives it back |
| Fono.SanitizedKeepsCounts | src/Fono.php:31 | each non-whitespace character occurs in the sanitized value as often as in the input |
| Fono.SanitizedConcat | src/Fono.php:31 | sanitizing `a + b` gives sanitized `a` followed by sanitized `b`, so the kept characters keep their order |
| Fono.Formatted | src/Fono.php:36-41 | the display form holds no whitespace and sanitizes to the same canonical form as the input |
| CzPhone.Sanitized | src/Countries/CZ/Phone.php:9-24 | the canonical form holds no whitespace, dot or dash; it never starts with `+`; it never has the national length nine |
| CzPhone.PrefixExactlyAtNationalLength | src/Countries/CZ/Phone.php:19-21 | `00420` is put in front exactly when the stripped, `+`-rewritten string has nine characters; otherwise that string is the result |
| CzPhone.PlusCount | src/Countries/CZ/Phone.php:14-17 | only a leading `+` of the stripped string is consumed; every other `+` of the raw input survives |
| CzPhone.LeadingPlusIsDoubleZero | src/Countries/CZ/Phone.php:17 | after any run of separators, a leading `+` sanitizes exactly like `00` |
| CzPhone.SanitizedIdempotent | src/Countries/CZ/Phone.php:11-23 | sanitizing a canonical phone number gives it back |
| CzPhone.ValidIff | src/Countries/CZ/Phone.php:7-21 | a number validates exactly when its separator-free form is one of: nine digits; `+` and seven digits; `00420` and nine digits; `+420` and nine digits |
| CzPhone.Plain | src/Countries/CZ/Phone.php:26-36 | a valid number's plain form is the nine digits after `00420`; an invalid number gives back its canonical form; the result is nine digits exactly when the number is valid |
| CzPhone.Formatted | src/Countries/CZ/Phone.php:38-48 | a valid number displays as its plain digits in groups of three: eleven characters with spaces at positions 3 and 7, and deleting the spaces gives the plain form; an invalid number gives back its canonical form |
| CzPhone.GroupsOfThree | src/Countries/CZ/Phone.php:44 | `implode(' ', str_split(p, 3))` on nine digits is the three groups with single spaces, and deleting whitespace restores `p` |
| CzPhone.FormattedRoundTrip | src/Countries/CZ/Phone.php:38-48 | sanitizing the display form gives the canonical form back, for every input |
| CzPhone.ExampleInternational | src/Countries/CZ/Phone.php:14-44 | `+420 123 456 789` sanitizes to `00420123456789`, validates, has plain form `123456789` and displays as `123 456 789` |
| CzPhone.AsWrittenFails | src/Countries/CZ/Phone.php:11 | as written, `getSanitized` ends in an undefined-method error for every input |
| CzLegacy.Sanitized | src/Countries/CZ.php:9-23 | the older class computes the same canonical form as the phone class, for every input |
| CzLegacy.ValidateAgreesWithPhone | src/Countries/CZ.php:7 | the older class accepts exactly the numbers the phone class accepts, characterised by the separator-free form |
| CzLegacy.SanitizedIdempotent | src/Countries/CZ.php:13-20 | sanitizing a canonical number gives it back |
| CzLegacy.Formatted | src/Fono.php:36-41 | the inherited display form is the canonical form: a fixpoint of the sanitizer with the same canonical form as the input, hence equal to it; fourteen characters for a valid number, never the grouped form of the phone class |
| CzPostalCode.ValidIffFiveDigits | src/Countries/CZ/PostalCode.php:7 | a postal code is valid exactly when its whitespace-free form is five digits; the branch with a separator is never reached |
| CzPostalCode.Formatted | src/Countries/CZ/PostalCode.php:14-20 | the display form is the first three characters of the canonical form, one space, then the next two at most; anything beyond the fifth character is dropped |
| CzPostalCode.FormattedRoundTrip | src/Countries/CZ/PostalCode.php:14-20 | sanitizing the display form gives the canonical form back exactly when that form has at most five characters |
| CzPostalCode.FormattedValidates | src/Countries/CZ/PostalCode.php:14-20 | the display form of a valid code is valid again, with the same canonical form |
| CzPostalCode.Plain | src/Countries/CZ/PostalCode.php:9-12 | for a digit string, the plain form is its decimal value written out, so leading zeros are lost; a valid code gives one to five digits |
| CzPostalCode.ExampleSpacingIgnored | src/Countries/CZ/PostalCode.php:7 | `110 00`, `11000` and ` 1 1000` all sanitize to `11000` and validate |
| CzPostalCode.ExamplePlainAndFormatted | src/Countries/CZ/PostalCode.php:9-20 | `110 00` displays as `110 00` and has the plain form `11000` |
| CzPostalCode.ExampleLeadingZero | src/Countries/CZ/PostalCode.php:11 | `012 34` has the plain form `1234` |
| CzBankAccount.RegexFilter | src/Countries/CZ/BankAccount.php:7-10 | `getRegexFilter` matches exactly the strings the decision procedure accepts: four digits after a slash five from the end, and before it up to six digits, the first dash and one to ten digits, or one to sixteen dash-free digits |
| CzBankAccount.AsWrittenRejectsAll | src/Fono.php:21-24 | as written, `validate` uses the inherited empty filter and rejects every account number |
| CzBankAccount.ValidateIff | src/Countries/CZ/BankAccount.php:7-10 | with the class's own pattern, an account validates exactly when the decision procedure accepts its whitespace-free form |
| CzBankAccount.DashFree | src/Countries/CZ/BankAccount.php:9 | a dash-free account is valid exactly when it is 1–16 digits, a slash and 4 digits |
| CzBankAccount.Formatted | src/Fono.php:36-41 | the inherited display form is whitespace-free, sanitizes to the same value, and validates exactly when the input does |
| CzBankAccount.ExamplePattern | src/Countries/CZ/BankAccount.php:9 | `19-2000145399/0800` and `2000145399/0800` validate, `2000145399` does not; the as-written class rejects the first |
| CzBankAccount.ExampleSpaced | src/Fono.php:28-41 | `19 - 2000145399 / 0800` sanitizes and displays as `19-2000145399/0800`, which validates |
| Identifiers.Sanitized | src/Fono.php:33 | `new static(...)` keeps the class, holds that class's sanitized string, and that string is already canonical for the class |
| Identifiers.ValidateSeesSanitized | src/Fono.php:21-24 | an object and the object its `getSanitized` returns are valid together, for every class |
| Identifiers.FormattedRoundTrip | src/Fono.php:36-41 | for every class, sanitizing the display form restores the canonical form, except that a postal code longer than five characters loses its tail |
| Identifiers.FormattedValidates | src/Fono.php:36-41 | the display form of a valid identifier is valid; outside postal codes the display form is valid exactly when the identifier is |
| Identifiers.PostalFormattedMayValidate | src/Countries/CZ/PostalCode.php:14-20 | `123456` is not a valid postal code, but its display form `123 45` is |

## Left out

- The regular-expression engine: each pattern is a hand-written predicate over the whole string.
- The `/u` modifier and Unicode whitespace: one `IsWs` stands for `\s` with and without `/u`.
- Invalid UTF-8 under `/u`, for which `preg_replace` returns null: strings are sequences of characters.
- Byte-counting `strlen` and `substr`: lengths are counted in characters.
- `$` matching before a trailing line feed: no sanitized value holds a line feed.
- CzPostalCode.Plain: stated only for whitespace-free digit strings of at most eighteen characters. The `(int)` cast of other strings, including 64-bit overflow, is not modelled.
- Object mechanics: the public mutable `$input` field and the conversion of returned objects to `string` through `__toString`. `new static` is modelled as dispatch on the class.
- The as-written views of `CZ\Phone` and the as-written `validate` of `CZ\BankAccount`, beyond the two Findings rows. As written, every `Phone` view (`getSanitized`, `validate`, `getPlain`, `getFormatted`) stops with the undefined-`getValue` error, and `BankAccount::validate` is always false. `CzPhone.ValidIff`, `CzPhone.Plain`, `CzPhone.Formatted`, `CzBankAccount.Validate` and the whole `Identifiers` module describe the corrected classes: the phone reads its raw input, and the bank account matches `getRegexFilter`.
- `__construct` and `__toString` have no member of their own. An `Identifier` holds the raw string, and no view can change it, because every view is a pure function.
- PHP warnings and deprecations: the empty-pattern warning behind the bank account's `validate`, and `null` as a replacement in `Countries\CZ`. Only their results are modelled: false, and deletion.
- A country-code resolver: none is among the classes modelled here, so none is modelled.

## Findings

| source | as written | input that shows it | evidently intended | confidence | as-written member | corrected member |
|---|---|---|---|---|---|---|
| src/Countries/CZ/Phone.php:11 | `getSanitized` starts with `$this->getValue()`, a method neither `Phone` nor `Fono` declares | `+420 123 456 789`, or any input: a fatal undefined-method error | read the raw input, as `Countries\CZ` does with `$this->input` | not executed; high: `getValue` is declared neither in `Phone` nor in `Fono`, which has no `__call` | CzPhone.SanitizedAsWritten | CzPhone.Sanitized |
| src/Fono.php:23 | `validate` reads `static::PREG_FILTER`, which `BankAccount` inherits as the empty string; `getRegexFilter` is never called | `19-2000145399/0800`: `validate` returns false | match the class's `getRegexFilter` pattern | not executed; high | CzBankAccount.AsWrittenRejectsAll | CzBankAccount.ValidateIff |
