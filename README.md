# Product-code generator of a point-of-sale admin application

This project models `generateProductCode(categoryName, existingCodes)`, a
helper in src/lib/product-code.ts that builds a suggested product code. None
of the product screens calls it: they number products as the largest numeric
`productCode` plus one. The helper builds a two-letter prefix from the
category name and appends a three-digit sequence number. The number is meant to continue after the
existing codes of that prefix. A name with fewer than two ASCII letters
gives the fixed code `XX001`.

The model is written as pure Dafny functions over `seq<char>` and
`seq<int>`, as the source is a single expression-style function:

- `Wrappers`: `Option`, standing for JavaScript's `null` (and `NaN` from `parseInt`).
- `JsString`: the string built-ins the generator calls: `trim`, `toUpperCase`,
  `padStart` and `startsWith`.
- `JsNumber`: `toString` of an integral number, `parseInt` and `Math.max`.
- `ProductCode`: the generator, its pieces, and the lemmas about it. It also
  holds a corrected generator (see "## Findings").

The main results are these:

- The prefix is the upper-cased first two ASCII letters of the name.
  Whitespace, digits and punctuation anywhere in the name have no effect.
- An integer's rendering, padded with `'0'`, starts with a digit or `-`.
  So it never starts with a letter prefix, and no existing code ever
  matches. The result is always `XX001` or the prefix followed by `001`.
- Even apart from that, the result depends on the existing codes only through
  the set of matched numbers, so order and duplicates do not matter.

The doc comment above the prefix computation calls the prefix the "first and
last letter". The code takes the first two letters (`slice(0, 2)`), and the
model follows the code. `ExampleFirstTwoLetters` shows `Apple` giving `AP001`.

## Model

| member | source | states |
|---|---|---|
| `JsString.IsJsWhitespace` | src/lib/product-code.ts:7 | the characters `trim` strips: ECMAScript WhiteSpace and LineTerminator, that is U+0009 to U+000D, U+0020, U+00A0, U+1680, U+2000 to U+200A, U+2028, U+2029, U+202F, U+205F, U+3000 and U+FEFF; none of them is an ASCII letter or a digit |
| `JsString.TrimStart` | src/lib/product-code.ts:7 | the result is a suffix of the input; every dropped leading character is whitespace, and the result does not start with whitespace |
| `JsString.TrimEnd` | src/lib/product-code.ts:7 | the result is a prefix of the input; every dropped trailing character is whitespace, and the result does not end with whitespace |
| `JsString.Trim` | src/lib/product-code.ts:7 | `trim` never lengthens the string, and a non-empty result neither starts nor ends with whitespace (with `TrimStart`, `TrimEnd` and `ProductCode.LettersOfTrim`) |
| `JsString.ToUpperAscii` | src/lib/product-code.ts:12 | an ASCII letter becomes the upper-case form of the same letter; any other character except `a`-`z` is unchanged |
| `JsString.UpperCase` | src/lib/product-code.ts:12 | same length, each character upper-cased in place |
| `JsString.PadStart` | src/lib/product-code.ts:21 | `padStart(n, c)` has length `max(n, |s|)`, ends with `s` (never truncates), and every added character is `c`; the fill comes from `JsString.Repeat(c, k)`, which is exactly `k` copies of `c` |
| `JsString.StartsWith` | src/lib/product-code.ts:22 | `s.startsWith(p)` holds exactly when `p` is no longer than `s` and agrees with `s` character by character, which makes it case-sensitive |
| `JsNumber.DigitsValue` | src/lib/product-code.ts:22 | the number a decimal digit string denotes, the value `parseInt` returns, read most significant digit first: `k` digits denote less than `10^k`, and without a leading zero at least `10^(k-1)` |
| `JsNumber.NatToString` | src/lib/product-code.ts:28 | the decimal rendering is non-empty, all digits, and starts with `0` exactly when the number is 0 |
| `JsNumber.IntToString` | src/lib/product-code.ts:21 | `code.toString()` is non-empty, starts with `-` exactly for negative numbers, and otherwise holds only digits |
| `JsNumber.LeadingDigits` | src/lib/product-code.ts:22 | the longest run of digits at the front of a string, as `parseInt` reads it |
| `JsNumber.ParseInt` | src/lib/product-code.ts:22 | a parsed number is negative only after a leading `-`, and a number is returned only when the trimmed text contains a digit; `ParseIntOfIntToString` is its round trip |
| `JsNumber.ParseIntOfIntToString` | src/lib/product-code.ts:22 | `parseInt` reads back exactly the integer `toString` rendered |
| `JsNumber.DigitsValueOfNatToString` | src/lib/product-code.ts:28 | the digits of the rendering denote the number rendered |
| `JsNumber.DigitsValueOfZeroPadded` | src/lib/product-code.ts:28 | zeros added by `padStart` in front of digits do not change their value |
| `JsNumber.DigitsValueInjective` | src/lib/product-code.ts:22-28 | two digit strings of the same length with the same value are the same string |
| `JsNumber.SeqMax` | src/lib/product-code.ts:27 | `Math.max` of a non-empty list is an element of it and at least every element |
| `ProductCode.Letters` | src/lib/product-code.ts:8-9 | the kept characters are all ASCII letters (`JsString.IsAsciiLetter`, the class `[a-zA-Z]`), and there are no more of them than characters in the name |
| `ProductCode.LettersAppend` | src/lib/product-code.ts:9 | filtering a concatenation is the concatenation of the filtered parts |
| `ProductCode.LettersOfTrim` | src/lib/product-code.ts:7-9 | `trim` does not change which letters the filter keeps |
| `ProductCode.Prefix` | src/lib/product-code.ts:6-12 | the prefix has two characters, or fewer when the name has fewer letters; each is upper case and the upper-case form of the corresponding letter of the name |
| `ProductCode.MatchCode` | src/lib/product-code.ts:20-22 | a code yields a number only when its padded rendering starts with the prefix; with a letter prefix it never does (`NoCodeMatchesLetterPrefix`) |
| `ProductCode.Matched` | src/lib/product-code.ts:19-24 | `prefixCodes` has at most one number per existing code; `MatchedMembers` gives its exact contents and `NothingMatchesLetterPrefix` shows it is empty for letter prefixes |
| `ProductCode.MatchedMembers` | src/lib/product-code.ts:19-24 | a number is in `prefixCodes` exactly when some existing code matches the prefix and yields that number |
| `ProductCode.NextSeq` | src/lib/product-code.ts:27 | the next number is 1 when nothing matched; otherwise it is greater than every matched number and one more than one of them |
| `ProductCode.Assemble` | src/lib/product-code.ts:28 | the code is at least three characters longer than the prefix and starts with it |
| `ProductCode.GenerateProductCode` | src/lib/product-code.ts:1-29 | the code has at least five characters and, for a name with at least two letters, starts with the prefix; it is described in full by `GenerateShape`, `GenerateIsAlwaysFirstInSequence`, `GenerateFallback`, `GenerateIgnoresOrderAndDuplicates` and `GenerateDependsOnlyOnLetters` |
| `ProductCode.GenerateFallback` | src/lib/product-code.ts:14-16 | a name with fewer than two ASCII letters gives exactly `XX001`, whatever the existing codes |
| `ProductCode.NoCodeMatchesLetterPrefix` | src/lib/product-code.ts:21-22 | no padded integer rendering starts with a prefix that begins with a letter |
| `ProductCode.InfinityNeverMatches` | src/lib/product-code.ts:21-22 | the rendering `Infinity`, padded, never starts with an upper-case two-letter prefix (support for the first "## Left out" note; codes are integers in the model, so nothing else uses it) |
| `ProductCode.NothingMatchesLetterPrefix` | src/lib/product-code.ts:19-24 | with a letter prefix, `prefixCodes` is empty for every list of codes |
| `ProductCode.GenerateIsAlwaysFirstInSequence` | src/lib/product-code.ts:19-28 | with at least two letters, the result is always the prefix followed by `001`, whatever the existing codes |
| `ProductCode.FirstCodeWellShaped` | src/lib/product-code.ts:28 | a two-letter upper-case prefix followed by `001` is two upper-case letters and three digits |
| `ProductCode.GenerateShape` | src/lib/product-code.ts:14-28 | every result is exactly two upper-case letters followed by three digits |
| `ProductCode.GenerateIgnoresExistingCodes` | src/lib/product-code.ts:19-28 | the result is the same for any two lists of existing codes |
| `ProductCode.NextSeqDependsOnlyOnSet` | src/lib/product-code.ts:27 | the next number is the same for lists holding the same values, whatever their order or repetition |
| `ProductCode.MatchedDependsOnlyOnSet` | src/lib/product-code.ts:19-24 | lists of existing codes holding the same values match the same numbers |
| `ProductCode.GenerateDependsOnlyOnMatchedSet` | src/lib/product-code.ts:19-28 | the result depends on the existing codes only through the set of matched numbers |
| `ProductCode.GenerateIgnoresOrderAndDuplicates` | src/lib/product-code.ts:19-28 | reordering or duplicating existing codes does not change the result, proved without using that nothing matches |
| `ProductCode.GenerateDependsOnlyOnLetters` | src/lib/product-code.ts:6-12 | two names with the same ASCII letters in the same order give the same code |
| `ProductCode.LettersSkipNonLetter` | src/lib/product-code.ts:9 | a non-letter inserted anywhere is not kept by the filter |
| `ProductCode.NonLetterHasNoEffect` | src/lib/product-code.ts:6-12 | inserting a non-letter character anywhere in the name does not change the code |
| `ProductCode.LettersFromFirstLetter` | src/lib/product-code.ts:9 | the letters of a name are its first letter followed by the letters after it |
| `ProductCode.FirstTwoLetters` | src/lib/product-code.ts:9-10 | when positions `i < j` hold the first two letters, those are the first two kept letters |
| `ProductCode.GenerateUsesFirstTwoLetters` | src/lib/product-code.ts:5-28 | when `i < j` hold the first two letters, the code is their upper-case forms followed by `001` (the first two letters, not the first and last) |
| `ProductCode.ExampleFirstTwoLetters` | src/lib/product-code.ts:5-10 | `Apple` gives `AP001` |
| `ProductCode.ExampleTrimmedName` | src/lib/product-code.ts:6-28 | `"  beverages "` with existing codes `[101, 202]` gives `BE001` |
| `ProductCode.ExampleFallback` | src/lib/product-code.ts:14-16 | `"9 x"`, which has one letter, gives `XX001` with the codes `[5]` (`GenerateFallback` covers every list of codes) |
| `ProductCode.MatchGenerated` | src/lib/product-code.ts:22 | corrected matching: a code yields a number only when it starts with the prefix and has more characters after it, and the number is never negative; `MatchGeneratedOfCode` and `MatchedCodeIsPrintedForm` relate it to the printed form in both directions |
| `ProductCode.MatchedGenerated` | src/lib/product-code.ts:19-24 | corrected matching: at most one number per existing code, none negative; `MatchedGeneratedMembers` gives its exact contents |
| `ProductCode.MatchedGeneratedMembers` | src/lib/product-code.ts:19-24 | corrected matching: a number is matched exactly when some existing code of the prefix carries it |
| `ProductCode.GenerateNextCode` | src/lib/product-code.ts:1-29 | the corrected code has at least five characters and, for a name with at least two letters, starts with the prefix; `GenerateNextCodeFallback`, `GenerateNextCodeAdvances` and `GenerateNextCodeIsFresh` describe it in full |
| `ProductCode.GenerateNextCodeFallback` | src/lib/product-code.ts:14-16 | the corrected generator keeps the `XX001` fallback |
| `ProductCode.PaddedSequenceNumber` | src/lib/product-code.ts:28 | a sequence number padded to three digits is all digits and reads back as itself |
| `ProductCode.MatchGeneratedOfCode` | src/lib/product-code.ts:22-28 | a code made of a prefix and a padded number matches that prefix with that number |
| `ProductCode.MatchedCodeIsPrintedForm` | src/lib/product-code.ts:22-28 | a matched code with as many characters as the printed form of its number is exactly the prefix followed by that number padded to three digits |
| `ProductCode.NextSeqExceedsExisting` | src/lib/product-code.ts:27 | the corrected next number is positive and greater than the number of every existing code of the prefix |
| `ProductCode.GenerateNextCodeAdvances` | src/lib/product-code.ts:18-28 | with at least two letters, the corrected code is itself a code of its prefix, with a number greater than every existing code of that prefix |
| `ProductCode.GenerateNextCodeIsFresh` | src/lib/product-code.ts:18-28 | with at least two letters, the corrected code is never one of the existing codes |

## Left out

- Existing codes are mathematical integers. JavaScript's renderings of other numbers are not modelled: fractions, exponent forms such as `1e+21`, `NaN`, and `Infinity`. Padded to six characters, each of them starts with a digit, `-`, or `In`. Because `startsWith` is case-sensitive and the prefix is upper case, none of them matches either (`ProductCode.InfinityNeverMatches` covers `Infinity`).
- `JsNumber.ParseInt` models `parseInt` as skipping leading whitespace, reading an optional sign and then decimal digits. It does not model the hexadecimal `0x` form.
- `JsNumber.ParseInt` returns `None` where JavaScript returns `NaN`. The source's `num !== null` filter keeps `NaN`, but the model drops it. This only matters on the parse path, and `ProductCode.NothingMatchesLetterPrefix` proves that path is never taken for integer codes.
- `JsString.ToUpperAscii` maps only `a`-`z`. Full Unicode case mapping is not modelled, because `toUpperCase` is applied only to ASCII letters here.
- Strings are sequences of Dafny characters. UTF-16 surrogate pairs produced by `split('')` are not modelled. This does not affect the result, because only ASCII letters are kept.
- The `RangeError` that `Math.max(...list)` raises for extremely long argument lists is not modelled. `ProductCode.GenerateProductCode` has no precondition, so it yields a code for every input.
- The rest of the repository is not part of this model. That includes the React pages and components, the route handlers, database access, password hashing, cookies, the seed script and the Mongoose schemas. The schema's `productCode` number field (1 to 999) is not linked to the generated strings. The cart, tax and checkout computation in src/app/(dashboard)/pos/page.tsx is outside this model.

## Findings

| source | as written | input that shows it | evidently intended | confidence | as-written member | corrected member |
|---|---|---|---|---|---|---|
| src/lib/product-code.ts:19-27 | existing codes are numbers; their decimal renderings, padded with `'0'`, are compared against a two-letter prefix, so none ever matches and the sequence number is always 1 | `generateProductCode("Beverages", [101, 202])` returns `BE001`; a caller that passed the existing codes of a category would get `BE001` again on every call, whatever the list holds | existing codes of the prefix (strings such as `BE001`) are matched, and the next code continues their sequence without repeating one | medium, not executed | `ProductCode.GenerateIsAlwaysFirstInSequence` | `ProductCode.GenerateNextCodeIsFresh` |

The corrected generator `ProductCode.GenerateNextCode` takes the existing
codes as strings. It matches those that are the prefix followed by digits,
and it keeps the source's prefix rule and `XX001` fallback unchanged.
For a name with at least two letters, `ProductCode.GenerateNextCodeAdvances`
proves that its sequence number is greater than that of every existing code of
the prefix, and `ProductCode.GenerateNextCodeIsFresh` that the code is new.
Freshness is proved only for such names: a name with fewer than two letters
still gives `XX001`, even when `XX001` is already among the existing codes.
