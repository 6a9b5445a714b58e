# Savings demo front-end: the rules behind the forms and the listing

This project models, in Dafny, the small self-contained rules of a Next.js
demo for a retail savings product. Each rule is stated as functions, methods
and lemmas, and its properties are proved.

- **Savings simulator** (`components/SimulatorForm.tsx`, module
  `SimulatorForm`):
  - the digit-grouping formatter `formatNumberInput`;
  - the four-field validator `validateForm`, with its Spanish messages and
    fixed bounds;
  - the month-by-month compound-interest loop of `calculateInterest`, over
    exact reals;
  - the `handleInputChange` and `handleReset` state updates.
- **Onboarding form** (`src/app/onboarding/page.tsx`, module `Onboarding`):
  - the name, document and e-mail rules of `validacionForm`;
  - the error record it builds;
  - `handleInputChange` and `handleReset`;
  - the validation guard at the start of `handleSubmit`.
- **Account listing** (`src/app/products/page.tsx`, module `Products`):
  - the `search` filter (case-insensitive on the holder name, raw on the
    account number) and the `tipo` filter;
  - the summary folds `totalBalance` and `activeAccounts`;
  - the deduplicated `accountTypes`;
  - the initial inputs handed to the filter panel.
- **Filter panel** (`components/FilterSection.tsx`, module
  `FilterSection`):
  - `updateFilters` on a `URLSearchParams` object, modelled as a class
    holding a map;
  - `hasActiveFilters` and `handleClearFilters`;
  - the round trip from the panel's inputs through the query back to the
    listing page.

Module `Text` holds the JavaScript string operations these rules use:
- `trim` and the `\s` class, with ECMAScript's white-space set;
- `\d`;
- `length` in UTF-16 code units;
- `toLowerCase` on Latin-1 letters;
- `includes`.

Module `Wrappers` holds `Option`.

The React state of each component is a datatype. Most handlers are
functions from the old state to the new one; the two that validate
(`calculateInterest` and `handleSubmit`) are methods. `validateForm` and `validacionForm` fill
an error map step by step, so they are methods, each proved against the
function that specifies the record. The loop of `calculateInterest` is a
`while` loop proved against the monthly recurrence. `updateFilters` calls
`set` and `delete` on a `SearchParams` object.

Parsing is not modelled. `parseFloat` and `parseInt` results are inputs,
with `None` for `NaN`. The "required" check looks at the raw string, as the
code's `!formData.x` does.

The simulator page shows the annuity formula
VF = P (1 + r)^n + A ((1 + r)^n - 1) / r. The code never evaluates it; the
loop is what runs. Over exact reals, `SimulatorForm.BalanceClosedForm`
proves that the loop's balance equals the formula for every rate other
than 0.

Two behaviours of `validateForm` and `calculateInterest` worth knowing:
- A negative or unparsable principal gets "Ingresa un monto válido" before
  the 10,000 minimum is checked.
- A failed validation leaves the previous result displayed; it does not
  clear it.

## Model

| member | source | states |
|---|---|---|
| Text.TrimSpec | src/app/onboarding/page.tsx:44-46 | `trim` keeps the piece of the string between its leading and trailing white space: everything before and after that piece is white space, the piece neither starts nor ends with white space, and it is empty exactly when the whole string is white space |
| Text.Utf16Length | src/app/onboarding/page.tsx:46 | `length` counts UTF-16 units: one character counts 1, or 2 when outside the Basic Multilingual Plane; the total lies between the number of characters and twice it, equal to it exactly when no character lies outside that plane |
| Text.Utf16LengthAppend | src/app/onboarding/page.tsx:46 | the length of a concatenation is the sum of the lengths, which with the one-character case fixes the count for every string |
| Text.Lower | src/app/products/page.tsx:38 | `toLowerCase` keeps the length and lower-cases each character on its own |
| Text.IncludesIff | src/app/products/page.tsx:41-42 | `includes` holds exactly when the needle occurs at some position of the haystack |
| SimulatorForm.DigitsOf | components/SimulatorForm.tsx:54 | stripping the non-digits leaves only digits, no longer than the input; an all-digit input is unchanged; a single character is kept exactly when it is a digit |
| SimulatorForm.DigitsOfAppend | components/SimulatorForm.tsx:54 | the digits of a concatenation are the digits of the first part followed by those of the second, so every digit of the input survives, in order |
| SimulatorForm.Grouped | components/SimulatorForm.tsx:55 | grouping digits by threes from the right gives a well-grouped string whose digits, with the commas deleted, are the input |
| SimulatorForm.InsertCommas | components/SimulatorForm.tsx:55 | the replace only inserts commas: on digits, deleting them gives back the digits from the starting position on |
| SimulatorForm.InsertCommasAppend | components/SimulatorForm.tsx:55 | appending three digits makes the lookahead pattern match once more, just before them, and leaves its earlier matches where they were |
| SimulatorForm.InsertCommasIsGrouped | components/SimulatorForm.tsx:55 | the global replace of `\B(?=(\d{3})+(?!\d))` by "," equals grouping by threes from the right |
| SimulatorForm.FormatNumberInput | components/SimulatorForm.tsx:53-56 | the output is digits and commas grouped by thousands: no leading or trailing comma, a first group of 1-3 digits, later groups of exactly 3; deleting its commas gives exactly the input's digits, in order |
| SimulatorForm.GroupedOfWellGrouped | components/SimulatorForm.tsx:55 | every well-grouped string is the grouping of its own digits |
| SimulatorForm.FormatFixesWellGrouped | components/SimulatorForm.tsx:53-56 | formatting an already formatted string returns it unchanged |
| SimulatorForm.FormatNumberInputIdempotent | components/SimulatorForm.tsx:53-56 | formatting twice is formatting once |
| SimulatorForm.FormData.Set | components/SimulatorForm.tsx:157-160 | `{...prev, [field]: v}` sets the named field and keeps the other three |
| SimulatorForm.FieldError | components/SimulatorForm.tsx:62-102 | "required" exactly for an empty string, and "below minimum" only for the principal; `FieldErrorIsFirstFailure` states the full order of the checks |
| SimulatorForm.FieldErrorIsFirstFailure | components/SimulatorForm.tsx:62-102 | a field reports check c exactly when c fails and no earlier check fails (order: required, invalid, below minimum, above maximum); no error exactly when no check fails |
| SimulatorForm.AcceptedRange | components/SimulatorForm.tsx:62-102 | a field passes exactly when its string is non-empty and its number lies in the accepted range: principal 10,000..1,000,000,000, contribution 0..100,000,000, months 1..600, rate 0..50 |
| SimulatorForm.ValidationErrors | components/SimulatorForm.tsx:59-102 | the error record has an entry for a field exactly when that field fails, holding the message of its first failed check |
| SimulatorForm.ErrorRecord | components/SimulatorForm.tsx:60-102 | from the four verdicts: an entry for each failed field with its message, none for the others |
| SimulatorForm.FillErrors | components/SimulatorForm.tsx:60-102 | adding the failed fields' messages one by one, principal first, builds exactly that record |
| SimulatorForm.ValidateForm | components/SimulatorForm.tsx:59-106 | stores the validation record and answers true exactly when it is empty, which is exactly when all four fields pass |
| SimulatorForm.Project | components/SimulatorForm.tsx:118-139 | the loop yields n rows obeying the monthly recurrence from the principal (row i is month i+1, interest = carried balance × r, contribution = A, balance = carried + interest + A), a final amount equal to the carried balance, a total invested of P + A·n, and interest = final − invested |
| SimulatorForm.RowAt | components/SimulatorForm.tsx:122-134 | each row follows from the balance carried into its month |
| SimulatorForm.ScheduleExtend | components/SimulatorForm.tsx:129-134 | pushing the next month's row keeps the recurrence |
| SimulatorForm.RowIsBalance | components/SimulatorForm.tsx:120-127 | row i holds the balance after i+1 months and the interest on the balance after i months |
| SimulatorForm.ProjectionTotal | components/SimulatorForm.tsx:137-139 | the final amount is the balance after n months and, for n ≥ 1, the last row's balance; the generated interest is that balance minus P + A·n |
| SimulatorForm.BalanceZeroRate | components/SimulatorForm.tsx:120-127 | at rate 0 the balance after k months is P + A·k |
| SimulatorForm.ZeroRateProjection | components/SimulatorForm.tsx:119-139 | at rate 0 every month earns 0 interest, month i+1 ends at P + A·(i+1), and the generated interest is 0 |
| SimulatorForm.BalanceGrows | components/SimulatorForm.tsx:124-127 | with P, A, r ≥ 0 the balance never falls below P and never decreases from one month to the next |
| SimulatorForm.BalanceIncreasing | components/SimulatorForm.tsx:124-127 | with P, A, r ≥ 0 a later balance is never below an earlier one |
| SimulatorForm.ProjectionMonotone | components/SimulatorForm.tsx:119-135 | with P, A, r ≥ 0 each month starts at or above P, ends at or above where it started, and no later month ends below an earlier one |
| SimulatorForm.SumInterestOfSchedule | components/SimulatorForm.tsx:124-127 | the sum of the monthly interest column is the carried balance minus P minus A per month |
| SimulatorForm.InterestIsSumOfMonths | components/SimulatorForm.tsx:137-139 | the generated interest equals the sum of the monthly interest amounts |
| SimulatorForm.SumInterestNonNegative | components/SimulatorForm.tsx:124 | with P, A, r ≥ 0 the summed interest is not negative |
| SimulatorForm.BalanceAtLeastInvested | components/SimulatorForm.tsx:137-139 | with P, A, r ≥ 0 the balance after k months is at least P + A·k |
| SimulatorForm.BalanceTimesRate | components/SimulatorForm.tsx:120-127 | the loop's balance times r is P(1+r)^n·r + A((1+r)^n − 1) |
| SimulatorForm.BalanceClosedForm | src/app/simulator/page.tsx:28 | for r ≠ 0 the loop's balance after n months equals the displayed formula P(1+r)^n + A((1+r)^n − 1)/r |
| SimulatorForm.MonthlyRate | components/SimulatorForm.tsx:115-116 | the monthly rate times 1200 is the percentage entered, and it is not negative for a non-negative percentage |
| SimulatorForm.CalculateInterest | components/SimulatorForm.tsx:109-147 | stores the validation record; when a field fails it stops and keeps the previous result; otherwise all four numbers parsed, 1 ≤ n ≤ 600, and the stored result is the projection at monthly rate tasa/100/12 |
| SimulatorForm.ValidProjection | components/SimulatorForm.tsx:109-139 | a validated projection has one row per month numbered 1..n, non-decreasing balances, a final amount of at least the principal, and non-negative generated interest |
| SimulatorForm.ProjectionFacts | components/SimulatorForm.tsx:119-139 | the same facts for any non-negative principal, contribution and rate and at least one month |
| SimulatorForm.HandleInputChange | components/SimulatorForm.tsx:150-169 | the named field gets the value, passed through the formatter only for the two money fields; the other fields, the other fields' errors and the result are unchanged; the field's shown error is cleared |
| SimulatorForm.MoneyInputIsGrouped | components/SimulatorForm.tsx:153-155 | after typing into a money field the stored text is grouped by thousands, and deleting its commas gives exactly the typed digits |
| SimulatorForm.HandleReset | components/SimulatorForm.tsx:172-181 | after a reset every field is empty except the rate, which is "5"; there are no errors and no result |
| SimulatorForm.ResetThenCalculate | components/SimulatorForm.tsx:172-181 | after a reset there is no result, and validating reports "required" for principal, contribution and term and nothing for the default rate 5 |
| Onboarding.FormData.Set | src/app/onboarding/page.tsx:74-77 | `{...prev, [field]: value}` sets the named field and keeps the other three |
| Onboarding.NameCharIsNotAstral | src/app/onboarding/page.tsx:48 | every character the name class allows is a single UTF-16 unit |
| Onboarding.NombreError | src/app/onboarding/page.tsx:44-50 | the name gets one of its three messages or none, and none only with at least 3 units once trimmed and only class characters; `NombreErrorOrder` states which message when |
| Onboarding.NombreErrorOrder | src/app/onboarding/page.tsx:44-50 | "required" exactly for a blank name; "too short" exactly when non-blank with fewer than 3 units once trimmed; "letters only" exactly when at least 3 units once trimmed and some character is outside the class |
| Onboarding.NombreAccepted | src/app/onboarding/page.tsx:44-50 | a name passes exactly when it has at least 3 units once trimmed and only letters (ASCII, áéíóúÁÉÍÓÚñÑ) and white space |
| Onboarding.NombreAcceptedShape | src/app/onboarding/page.tsx:44-48 | an accepted name, trimmed, has at least 3 characters and starts and ends with a letter |
| Onboarding.DocumentoError | src/app/onboarding/page.tsx:53-59 | the document gets one of its three messages or none, and none only for 6 to 15 digits; `DocumentoAccepted` states which message when |
| Onboarding.DocumentoAccepted | src/app/onboarding/page.tsx:53-59 | a document passes exactly when it is 6 to 15 ASCII digits; "required" exactly when blank; "digits only" exactly when non-blank with a non-digit (surrounding spaces included); "length" exactly when all digits but outside 6..15 |
| Onboarding.EmailPattern | src/app/onboarding/page.tsx:64 | a string the regular expression accepts has at least five characters and neither starts nor ends with `@`; `EmailPatternIsShape` characterises it exactly |
| Onboarding.PatternHasShape | src/app/onboarding/page.tsx:64 | a string matching `^[^\s@]+@[^\s@]+\.[^\s@]+$` has no white space, a single `@` and a dot strictly inside its domain |
| Onboarding.ShapeHasPattern | src/app/onboarding/page.tsx:64 | conversely such a string matches, split at that `@` and that dot |
| Onboarding.EmailPatternIsShape | src/app/onboarding/page.tsx:64 | the pattern accepts exactly the strings with no white space, exactly one `@` with something before it, and a dot neither first nor last in the domain |
| Onboarding.CorreoError | src/app/onboarding/page.tsx:62-66 | the e-mail gets one of its two messages or none, and none exactly when it is non-blank and matches the pattern |
| Onboarding.CorreoAccepted | src/app/onboarding/page.tsx:62-66 | an e-mail passes exactly when it has that shape; "required" exactly when blank; "invalid" for every other string |
| Onboarding.ErrorRecord | src/app/onboarding/page.tsx:41-66 | from the three verdicts: an entry holding the message for each failed field, none for the others and never one for the reCAPTCHA token |
| Onboarding.ValidationErrorsSpec | src/app/onboarding/page.tsx:40-69 | each field has an entry in the record exactly when its rule fails, holding that rule's message |
| Onboarding.FillErrors | src/app/onboarding/page.tsx:41-66 | adding the failed fields' messages one by one builds exactly that record |
| Onboarding.ValidacionForm | src/app/onboarding/page.tsx:40-70 | stores the record and answers true exactly when it is empty, which is exactly when all three rules pass |
| Onboarding.ValidIff | src/app/onboarding/page.tsx:40-70 | the form is valid exactly when the name, document and e-mail rules hold, whatever the reCAPTCHA token is |
| Onboarding.HandleInputChange | src/app/onboarding/page.tsx:73-86 | the named field gets the value; the other fields, the other fields' errors and the submission flags are unchanged; the field's shown error is cleared |
| Onboarding.EditKeepsOtherVerdicts | src/app/onboarding/page.tsx:73-86 | editing one field leaves the verdict on every other field as it was |
| Onboarding.HandleReset | src/app/onboarding/page.tsx:133-142 | all four fields empty, no errors, no success message, the submitting flag untouched |
| Onboarding.ResetThenValidate | src/app/onboarding/page.tsx:133-142 | validating a reset form records exactly the three "required" messages |
| Onboarding.HandleSubmit | src/app/onboarding/page.tsx:89-94 | stores the record; proceeds exactly when the form is valid; a failed validation leaves the submitting flag as it was; a valid one sets it |
| Products.Filter | src/app/products/page.tsx:39-43 | `filter` keeps exactly the elements meeting the test, no more of them than there were, all of them exactly when every element meets it |
| Products.FilterIsSubsequence | src/app/products/page.tsx:39-47 | `filter` keeps the original order |
| Products.FilterTwice | src/app/products/page.tsx:37-48 | two filters in a row are one filter with both tests |
| Products.FilterAgree | src/app/products/page.tsx:39-47 | tests that agree on every element select the same list |
| Products.FilterAppend | src/app/products/page.tsx:54-56 | filtering a concatenation is concatenating the filtered parts |
| Products.SearchStep | src/app/products/page.tsx:37-44 | with a search given, the accounts kept are exactly those whose lower-cased holder name or raw account number contains the lower-cased search; without one, the list is unchanged |
| Products.TypeStep | src/app/products/page.tsx:46-48 | with a type other than "todos" given, the accounts kept are exactly those of that type; otherwise the list is unchanged |
| Products.VisibleAccounts | src/app/products/page.tsx:35-48 | the listed accounts are an ordered selection of all accounts, contain exactly the accounts meeting the active filters, and are all accounts when neither filter is active |
| Products.VisibleIsOnePass | src/app/products/page.tsx:35-48 | the search step followed by the type step is a single filter by both conditions |
| Products.VisibleAccountsExact | src/app/products/page.tsx:35-48 | the listing is exactly one pass keeping the accounts that meet the active filters |
| Products.SearchIgnoresCase | src/app/products/page.tsx:37-44 | searching for a text and for its lower-cased form list the same accounts |
| Products.TotalBalance | src/app/products/page.tsx:53 | the sum is 0 for no accounts, the balance of a single account, and never negative when no balance is; `TotalBalanceAppend` fixes it for every list |
| Products.TotalBalanceAppend | src/app/products/page.tsx:53 | the sum of two runs of accounts is the sum of their sums |
| Products.TotalBalancePartition | src/app/products/page.tsx:53 | the balances of the accounts meeting any test plus those of the others add up to the total balance |
| Products.TotalBalanceFilterStep | src/app/products/page.tsx:53 | the first account adds to a filtered total exactly when it passes the filter |
| Products.ActiveAccounts | src/app/products/page.tsx:54-56 | the active count lies between 0 and the number of accounts; it is the total exactly when all are active and 0 exactly when none is |
| Products.ActiveAccountsAppend | src/app/products/page.tsx:54-56 | each account adds one to the count exactly when it is active |
| Products.Types | src/app/products/page.tsx:63 | `map(acc => acc.accountType)` has one entry per account, holding its type |
| Products.InsertionOrder | src/app/products/page.tsx:62-64 | `Array.from(new Set(xs))` has no duplicates and holds exactly the values of xs |
| Products.InsertionOrderIsFirstOccurrence | src/app/products/page.tsx:62-64 | the distinct values come out in the order of their first occurrence |
| Products.AccountTypes | src/app/products/page.tsx:62-64 | the offered types have no duplicates and are exactly the types some account has |
| Products.Summarize | src/app/products/page.tsx:53-64 | the summary counts every account, and the active count never exceeds it |
| Products.OrElse | src/app/products/page.tsx:111-112 | `x \|\| fallback` gives a present non-empty parameter itself and the fallback for a missing or empty one (`?tipo=` gives the fallback), so it is empty only when the fallback is |
| Products.Render | src/app/products/page.tsx:109-113 | the panel's initial selector is never empty: it is a given non-empty `tipo`, and "todos" for a missing or empty one; the initial search is a given non-empty search, and "" otherwise |
| Products.SummaryIgnoresFilters | src/app/products/page.tsx:53-64 | the summary cards are the same whatever the filters, and the listing never has more accounts than the total |
| FilterSection.SearchParams.constructor | components/FilterSection.tsx:35 | the copy starts with the current parameters |
| FilterSection.SearchParams.Set | components/FilterSection.tsx:38 | `set` maps the key to the value and keeps every other entry |
| FilterSection.SearchParams.Delete | components/FilterSection.tsx:40 | `delete` removes the key and keeps every other entry |
| FilterSection.UpdatedParams | components/FilterSection.tsx:34-48 | "search" is present exactly when the search text is non-empty, holding it; "tipo" is present exactly when a type other than "todos" is named, holding it; every other parameter is kept unchanged |
| FilterSection.UpdateFilters | components/FilterSection.tsx:34-48 | the set/delete sequence on a copy of the parameters produces exactly those parameters |
| FilterSection.UpdateIdempotent | components/FilterSection.tsx:34-48 | pushing the same inputs twice gives the parameters of pushing them once |
| FilterSection.HasActiveFilters | components/FilterSection.tsx:59 | the panel counts as filtered exactly when it is not in the cleared state (empty search, "todos") |
| FilterSection.HandleClearFilters | components/FilterSection.tsx:54-57 | after clearing, no filter is active |
| FilterSection.ClearThenUpdate | components/FilterSection.tsx:54-57 | after clearing, the next push removes both "search" and "tipo" and keeps every other parameter |
| FilterSection.ActiveIffParams | components/FilterSection.tsx:59 | for a selector holding a value, the "clear filters" button shows exactly when the pushed query carries a filter parameter |
| FilterSection.UrlRoundTrip | components/FilterSection.tsx:37-47 | the listing page shows the same accounts for the pushed query as for the inputs themselves; a panel rendered from that query starts with the same inputs (an empty selector comes back as "todos") |

## Left out

- Currency formatting with `Intl.NumberFormat`, `toLocaleString` and `toFixed`: locale-dependent library output, not part of any rule.
- SimulatorForm.Project: computes over exact reals, so it does not model IEEE double rounding; every equality it states holds for the code only up to rounding.
- Products.TotalBalance: sums the balances as exact reals; `TotalBalanceAppend` and `TotalBalancePartition` hold for reals, and for the code's double-precision `reduce` only up to rounding.
- SimulatorForm.CalculateInterest: the numbers `parseFloat` and `parseInt` produce (including partial parses such as "12abc" → 12) are taken as inputs, and `None` stands for `NaN`. A parsed value has no `Infinity`: a money field of more than 309 digits parses to it in the code, and a real above the field's maximum stands for it, since it gets the same "above maximum" message.
- SimulatorForm.HandleInputChange: a cleared error is removed from the record rather than kept with the value `undefined`; only the display reads it, and validation rebuilds the record from scratch. A field whose error is the empty string (no message is empty) keeps it, as the code's truthiness test does.
- Onboarding.HandleInputChange: the same treatment of a cleared error.
- Onboarding.HandleSubmit: covers the synchronous guard only. The simulated reCAPTCHA token (`Date.now`, `Math.random`), the 1.5 s delay, `console.log`, the success flag, the 3 s clear and the catch branch are timers, randomness and I/O.
- Text.Lower: lower-cases Basic Latin and Latin-1 letters only, not the full Unicode case mapping.
- Text.Utf16Length: counts UTF-16 units of Unicode scalar values; lone surrogates cannot occur in Dafny strings.
- FilterSection.UpdateFilters: models the query as a map. Parameter order, repeated keys and `toString` serialisation are not modelled. The `router.push` navigation, `useTransition` and the 500 ms debounce effect are left out too.
- FilterSection.ActiveIffParams: stated for a non-empty selector only. With selector "" the panel counts as filtered (it is not "todos") while no "tipo" parameter is pushed. A panel rendered from a query never starts with "" (`UrlRoundTrip`).
- The "Ganancia" percentage of the simulator display and the average interest rate of the listing: division-based display values, not rules.
- The static JSON fixture and the 100 ms render delay of the listing page: the accounts are a parameter.
- The account card, the navigation bar and the simulator page's markup: presentation only.
