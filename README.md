# Motor insurance quote form — a verified model

This project models the core of a four-step motor insurance quotation form.
The modelled parts are:

- **the premium calculator** (`calculateQuote`): a base price per coverage type, plus
  5% of the vehicle value, times 1.3 for commercial use, printed with
  `toFixed(2)`;
- **the step validator** (`validateStep`): the field-level messages that must be empty
  before the form may leave step 1 (personal details), step 2 (vehicle
  details) or step 3 (cover);
- **the file name of the exported quote**:
  `Motor-Insurance-Quote-<name with white space runs as dashes>-<date>.pdf`;
- **the form controller** (`App`): the step on screen, the messages shown and the
  answers typed so far, with one method per event handler (typing, Next,
  Back, Reset);
- **the summary labels**: the coverage type `third-party-fire-theft` shown as
  `Third Party Fire Theft`, and the usage `commercial` shown as `Commercial`.

Files:

- `Wrappers.dfy`: `Option`.
- `JsStrings.dfy`: the JavaScript string operations the core uses. These are
  `trim` with JavaScript's white space set, `split` on one character, `join`,
  and the ASCII `toUpperCase` of one character.
- `JsNumbers.dfy`: `parseFloat` on plain decimal text, and
  `Number.prototype.toFixed(2)` on exact reals.
- `Types.dfy`: the answer record, the field names and the error map.
- `Utils.dfy`: the calculator, the validator and the file name.
- `App.dfy`: the controller, as the class `QuoteForm`.
- `QuoteSummary.dfy`: the two labels.

The calculator and the validator are each a method written the way the
source writes them: the base price is set by three successive tests, and the
error map grows field by field. Each is proved equal to a specification
function (`QuoteText`, `StepErrors`), and lemmas about that function state
what the program does for every input.

Two details of the validator and the controller:

- Only the name, email, phone, ID number, model and registration are trimmed
  before the emptiness check. The make, year, value, coverage type and usage
  are checked as typed, so white space alone passes (`RawAndTrimmedChecks`).
  The email pattern is tested on the email as typed.
- `nextStep` is only reachable from steps 1-3, because the Continue button
  that calls it is shown only while the step is below 4; step 4 shows a
  submit button instead. The model's `NextStep` also covers step 4: there
  `validateStep` returns an empty map (`OtherStepsPass`) and nothing changes.

## Model

| member | source | states |
|---|---|---|
| JsStrings.IsWhitespace | src/utils.ts:46 | no contract of its own: the set of characters `trim()` and `\s` treat as white space (space, tab, line breaks, no-break space, the Unicode space separators, line and paragraph separators, byte-order mark) |
| JsStrings.Trim | src/utils.ts:46 | no contract of its own: `trim()` as leading then trailing white space removed; characterised by `TrimIsSlice` and `TrimEmptyIffBlank` |
| JsStrings.TrimStartDrops | src/utils.ts:46 | dropping leading white space leaves a suffix; what is dropped is blank; the result does not start with white space |
| JsStrings.TrimEndDrops | src/utils.ts:46 | dropping trailing white space leaves a prefix; what is dropped is blank; the result does not end with white space |
| JsStrings.TrimIsSlice | src/utils.ts:46 | `trim()` returns a contiguous slice of its input that neither starts nor ends with white space |
| JsStrings.TrimEmptyIffBlank | src/utils.ts:46 | `!s.trim()` holds exactly when `s` consists of white space only |
| JsStrings.ToUpperChar | src/components/QuoteSummary.tsx:174 | a–z map to A–Z (code point minus 32); every other character is unchanged |
| JsStrings.Capitalize | src/components/QuoteSummary.tsx:174 | same length; the first character upper-cased and the rest unchanged |
| JsStrings.Split | src/components/QuoteSummary.tsx:167 | `split` on a one-character separator yields at least one piece ("" gives `[""]`); characterised by `SplitWithoutSeparator`, `SplitAtFirstSeparator` and `SplitPiecesLackSeparator` |
| JsStrings.Join | src/components/QuoteSummary.tsx:169 | no contract of its own: `join(sep)`; characterised by the round trips `JoinSplit` and `SplitJoin` |
| JsStrings.SplitPiecesLackSeparator | src/components/QuoteSummary.tsx:167 | no piece of `split(sep)` contains `sep` |
| JsStrings.SplitWithoutSeparator | src/components/QuoteSummary.tsx:167 | text without the separator splits into itself alone |
| JsStrings.SplitAtFirstSeparator | src/components/QuoteSummary.tsx:167 | `split` cuts at the first separator: the text before it is the first piece, and the pieces of the rest follow |
| JsStrings.JoinSplit | src/components/QuoteSummary.tsx:167-169 | `s.split(sep).join(sep) == s` for every `s` |
| JsStrings.SplitJoin | src/components/QuoteSummary.tsx:167-169 | `ws.join(sep).split(sep) == ws` when no piece contains `sep` |
| JsStrings.CapitalizeEach | src/components/QuoteSummary.tsx:167-168 | `map` keeps the number of words and capitalises each one |
| JsNumbers.ParseFloat | src/utils.ts:23 | no contract of its own: `parseFloat` on leading white space, an optional sign and a decimal literal, `None` for NaN; characterised by `ParseSigned`, `ParseFixed2Body`, `ParseNatText` and `ParseNonNumeric` |
| JsNumbers.Hundredths | src/utils.ts:31 | the magnitude times 100 rounded to the nearest whole number, ties away from zero |
| JsNumbers.ToFixed2 | src/utils.ts:31 | no contract of its own: `toFixed(2)` as the sign followed by the rounded hundredths; characterised by `ToFixed2Shape` and `ToFixed2ReadsBack` |
| JsNumbers.NatTextDenotes | src/utils.ts:31 | the numeral of `n` is non-empty digits, without a leading zero, that denote `n` |
| JsNumbers.ToFixed2Shape | src/utils.ts:31 | `toFixed(2)` prints an optional "-", a numeral, "." and two digits; the "-" appears exactly for negative values |
| JsNumbers.ParseFixed2Body | src/utils.ts:23 | `parseFloat` reads a numeral, a point and two digits `d` as `q + d/100` |
| JsNumbers.ParseSigned | src/utils.ts:23 | `parseFloat` reads an optional leading "-" followed by an unsigned literal (starting with a digit or a point) as that literal's value, negated when the "-" is there |
| JsNumbers.ToFixed2ReadsBack | src/utils.ts:31 | the text of `toFixed(2)` parses back to a whole number of hundredths within 0.005 of the value |
| JsNumbers.ParseNatText | src/utils.ts:23 | `parseFloat` reads the numeral of `n` as `n` |
| JsNumbers.ParseNonNumeric | src/utils.ts:23 | text starting with a character no decimal literal can start with does not parse |
| Types.FormData.With | src/App.tsx:43 | `{ ...formData, [field]: value }` holds `value` under `field` and every other answer unchanged |
| Types.SameAnswersSameRecord | src/types.ts:6-18 | the eleven answers determine the record |
| Utils.BasePrice | src/utils.ts:15-20 | no contract of its own: the base price table; characterised by `BasePriceCases` |
| Utils.LenientValue | src/utils.ts:23 | no contract of its own: `parseFloat(value) \|\| 0`; characterised by `ValueCharge`, `NumeralValue` and `ExampleValues` |
| Utils.Subtotal | src/utils.ts:24-30 | no contract of its own: base price plus 5% of the value; characterised by `ValueCharge` |
| Utils.QuoteTotal | src/utils.ts:27-30 | no contract of its own: the subtotal, times 1.3 for commercial use; characterised by `CommercialSurcharge` |
| Utils.QuoteText | src/utils.ts:14-32 | no contract of its own: the specification of `calculateQuote`; characterised by `QuoteTextDenotesTotal`, `QuoteReadsPricingFieldsOnly` and the worked examples |
| Utils.CalculateQuote | src/utils.ts:14-32 | the three successive base-price tests, the value charge, the multiplier and `toFixed(2)` yield `QuoteText`, a two-decimal text |
| Utils.BasePriceCases | src/utils.ts:15-20 | the base price is 500, 800 or 1500 exactly for the three offered coverage types, and 0 exactly for any other text |
| Utils.ValueCharge | src/utils.ts:23-24 | an unparseable vehicle value adds nothing; a parsed value adds 5% of it |
| Utils.CommercialSurcharge | src/utils.ts:27-30 | commercial use costs 1.3 times the subtotal; any other usage costs the subtotal |
| Utils.QuoteReadsPricingFieldsOnly | src/utils.ts:14-32 | two records that agree on coverage type, vehicle value and usage get the same quote |
| Utils.QuoteTextDenotesTotal | src/utils.ts:30-31 | the printed quote parses, and it is within half a hundredth of the exact premium |
| Utils.ToFixed2Whole | src/utils.ts:31 | a whole amount prints as its numeral followed by ".00" |
| Utils.NumeralValue | src/utils.ts:23 | a vehicle value written as the numeral of `n` counts as `n` |
| Utils.WholeAmountText | src/utils.ts:31 | a premium equal to the whole number `n` prints as the numeral of `n` plus ".00" |
| Utils.ExampleValues | src/utils.ts:23 | "0" counts as 0, "1000" as 1000, and "abc" as 0 |
| Utils.QuoteExamplesBasePrices | src/utils.ts:18-20 | with value "0" and personal use, the three coverage types cost "500.00", "800.00" and "1500.00" |
| Utils.QuoteExampleCommercial | src/utils.ts:27-31 | comprehensive cover for commercial use with value "0" costs "1950.00" |
| Utils.QuoteExampleValueCharge | src/utils.ts:23-31 | third-party cover with value "1000" and personal use costs "550.00" |
| Utils.QuoteUnknownCoverage | src/utils.ts:15-31 | a coverage type that is not offered (including "") with a vehicle value counting as 0 costs "0.00", whatever the usage |
| Utils.QuoteExampleUnknown | src/utils.ts:15-31 | "gold" with value "abc", and "" with value "0", both cost "0.00" |
| Utils.MatchesEmailPattern | src/utils.ts:48 | no contract of its own: `/\S+@\S+\.\S+/.test(s)` as an "@" and a later "." placed as `EmailShapeAt` says; characterised by `EmailPatternExamples` |
| Utils.EmailShapeAt | src/utils.ts:48 | no contract of its own: a non-space character, "@", one or more non-space characters, ".", and a non-space character |
| Utils.FieldError | src/utils.ts:45-66 | no contract of its own: the test of one field as lines 46-65 write it; characterised by `FieldErrorRule` and `EmailMessages` |
| Utils.CheckFields | src/utils.ts:42-68 | no contract of its own: the tests of a list of fields applied one after another; characterised by `CheckFieldsEntries` |
| Utils.StepErrors | src/utils.ts:41-69 | no contract of its own: the specification of `validateStep`; characterised by `StepErrorsAreFieldErrors`, `StepErrorEntries` and `StepPassesIffFieldsPass` |
| Utils.FieldErrorRule | src/utils.ts:45-66 | a missing field gets its required-message; a present field gets "Invalid email" exactly when it is an email not matching the pattern; otherwise no message |
| Utils.CheckFieldsEntries | src/utils.ts:42-68 | running the tests of some fields keeps the other earlier entries and gives exactly each listed failing field its own message |
| Utils.StepErrorsAreFieldErrors | src/utils.ts:41-69 | a step's error map is exactly the messages of its failing fields |
| Utils.ValidateStep | src/utils.ts:41-69 | the step-by-step checks build exactly `StepErrors(step, form)` |
| Utils.OtherStepsPass | src/utils.ts:41-69 | a step number other than 1, 2 or 3 yields an empty map |
| Utils.StepErrorEntries | src/utils.ts:45-66 | every key is one of the step's fields with a failing test, and each maps to its required-message (field missing) or "Invalid email" (email not matching) |
| Utils.StepPassesIffFieldsPass | src/utils.ts:41-69 | the error map is empty exactly when every field of the step passes its test |
| Utils.PersonalDetailsPass | src/utils.ts:45-51 | step 1 passes exactly when name, phone and ID are non-blank and the email matches the pattern |
| Utils.VehicleDetailsPass | src/utils.ts:54-60 | step 2 passes exactly when make, year and value are non-empty as typed, and model and registration are non-blank |
| Utils.CoverPass | src/utils.ts:63-66 | step 3 passes exactly when coverage type and usage are both non-empty |
| Utils.EmailMessages | src/utils.ts:47-48 | "Email is required" exactly for a blank email; "Invalid email" exactly for a non-blank email not matching; no message exactly when it matches |
| Utils.EmailPatternExamples | src/utils.ts:48 | "jane@example.com" matches the pattern and "not-an-email" does not |
| Utils.RawAndTrimmedChecks | src/utils.ts:55-56 | a make of three spaces passes, while a model of three spaces gets "Model is required" |
| Utils.EmptyPersonalDetails | src/utils.ts:45-51 | step 1 on an untouched form reports the name, email, phone and ID required-messages |
| Utils.MalformedEmailOnly | src/utils.ts:45-51 | with the other personal details present, the email "not-an-email" yields only "Invalid email" |
| Utils.MissingUsageOnly | src/utils.ts:63-66 | step 3 with a coverage type but no usage yields only "Select usage type" |
| Utils.ReplaceWhitespaceRuns | src/utils.ts:124 | `replace(/\s+/g, '-')` leaves no white space and never lengthens the text |
| Utils.ReplaceKeepsPlainText | src/utils.ts:124 | a name without white space is left unchanged |
| Utils.TrimStartSkipsBlank | src/utils.ts:124 | a white space run followed by a non-space character is consumed whole |
| Utils.ReplaceOneRun | src/utils.ts:124 | one maximal white space run between plain text and the rest becomes a single "-" |
| Utils.DateOf | src/utils.ts:123 | no contract of its own: `iso.split('T')[0]`; characterised by `DateOfTimestamp` |
| Utils.DateOfTimestamp | src/utils.ts:123 | `iso.split('T')[0]` of `<date>T<time>` is `<date>` when the date has no "T" |
| Utils.QuoteFileName | src/utils.ts:123-124 | the file name starts with "Motor-Insurance-Quote-" and ends with ".pdf" |
| Utils.QuoteFileNameParts | src/utils.ts:123-124 | the middle of the file name is the name with white space runs replaced, holding no white space, followed by "-", the date and ".pdf" |
| Utils.ReplaceExample | src/utils.ts:124 | "Jane  Doe" becomes "Jane-Doe" |
| Utils.DateOfExample | src/utils.ts:123 | the date of "2026-10-15T08:30:00.000Z" is "2026-10-15" |
| Utils.QuoteFileNameExample | src/utils.ts:123-124 | "Jane  Doe" at that instant is saved as "Motor-Insurance-Quote-Jane-Doe-2026-10-15.pdf" |
| App.QuoteForm.constructor | src/App.tsx:18-36 | the form starts on step 1 with no messages and every answer empty |
| App.QuoteForm.HandleInputChange | src/App.tsx:42-48 | stores the value under the field alone; a non-empty message on that field becomes ""; every other message and the step are unchanged |
| App.QuoteForm.NextStep | src/App.tsx:51-65 | failing validation shows exactly the step's messages (keys among the step's fields) and stays; passing moves steps 1-3 on by one and clears the messages; nothing changes on step 4; the answers never change; the step stays within 1-4 |
| App.QuoteForm.PrevStep | src/App.tsx:68-73 | steps 2-4 go back by one and clear the messages; nothing changes on step 1; the step stays within 1-4 |
| App.QuoteForm.ResetForm | src/App.tsx:84-104 | when confirmed, the form is as new (step 1, no messages, empty answers); otherwise nothing changes |
| App.QuoteForm.QuoteAmount | src/App.tsx:107 | the premium shown is the calculator's text for the current answers |
| QuoteSummary.CoverageLabel | src/components/QuoteSummary.tsx:167-169 | no contract of its own: split on "-", capitalise each word, join with " "; characterised by `PipelineIsTitleCase`, `CoverageLabelShape` and `CoverageLabelOfWords` |
| QuoteSummary.UsageLabel | src/components/QuoteSummary.tsx:174 | same length as the usage; first character upper-cased and the rest unchanged |
| QuoteSummary.PipelineIsTitleCase | src/components/QuoteSummary.tsx:167-169 | the split-capitalise-join label equals the one-pass scan that turns "-" into a space and upper-cases each word's first character |
| QuoteSummary.TitleCaseAt | src/components/QuoteSummary.tsx:167-169 | character by character, the scan maps "-" to a space, upper-cases a word's first character and keeps the rest |
| QuoteSummary.CoverageLabelShape | src/components/QuoteSummary.tsx:167-169 | the label has the coverage type's length, shows a space exactly where the coverage type has a "-" or a space, and upper-cases exactly the first character of each dash-separated word |
| QuoteSummary.CoverageLabelOfWords | src/components/QuoteSummary.tsx:167-169 | the label of dash-joined words is the capitalised words joined by spaces |
| QuoteSummary.CoverageLabelOfFourWords | src/components/QuoteSummary.tsx:167-169 | the same, for four words written out |
| QuoteSummary.CoverageLabelExamples | src/components/QuoteSummary.tsx:167-169 | "third-party" is shown as "Third Party", "comprehensive" as "Comprehensive", and "" as "" |
| QuoteSummary.FireTheftLabelExample | src/components/QuoteSummary.tsx:167-169 | "third-party-fire-theft" is shown as "Third Party Fire Theft" |
| QuoteSummary.UsageLabelExamples | src/components/QuoteSummary.tsx:174 | "personal" is shown as "Personal", "commercial" as "Commercial", and "" as "" |

## Left out

- Utils.QuoteText: IEEE-754 rounding is not modelled: not of the parsed value, of `0.05`, `1.3`,
  the products or the sum. The calculator computes on exact reals. The printed quote can differ
  from the browser's by one hundredth when the total lies within a rounding error of a half
  hundredth. For example, third-party cover with value "10.1" has the exact total 500.505. The model
  prints that as "500.51", while the nearest double lies just below it and prints "500.50". The
  quote can differ by more for totals above about 7e13, where a double cannot represent
  hundredths.
- JsNumbers.ToFixed2: magnitudes of 1e21 and above, which JavaScript prints in exponent form, are
  printed as positional digits.
- JsNumbers.ParseFloat: modelled on whole decimal literals only. These are leading white space, an
  optional sign, then `digits`, `digits.`, `digits.digits` or `.digits`. A text that merely starts
  with a number (such as "12abc"), exponents and `Infinity` are treated as unparseable.
- Utils.LenientValue: inherits the `ParseFloat` gap. It gives 0 where JavaScript would read a
  leading number, and `JsNumbers.ParseNonNumeric` treats a text led by "Infinity" as unparseable.
- JsStrings.ToUpperChar: upper-cases ASCII letters only; other characters are left as they are.
- The rest of `generatePDFQuote` is not modelled: the HTML capture, the page layout, the PDF
  download and the failure alert. Only the file name is. The clock enters as the ISO 8601
  timestamp parameter `now`.
- `saveProgress` (`localStorage`, the timed save notice), the removal of the saved data on reset,
  and `window.confirm` are left out. The confirmation answer is the `confirmed` parameter of
  `ResetForm`.
- React's batched, asynchronous state updates are not modelled. Each handler is a method that
  updates the state at once. Successive handlers that read stale state from one render are also
  not modelled.
- The order of keys in the error object is not recorded, because the error map is a `map`.
- The JSX rendering, the animations, the summary's `toLocaleString` formatting, and the other
  components (header, progress indicator, step forms, inputs, buttons) are not modelled.
