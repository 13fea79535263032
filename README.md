# Fee-quote calculator of the skills-development website

This project models the core of the website's course-fee calculator
(`website/script.js`):

- the constant course catalogue: four six-month courses at R1500 and three
  six-week courses at R750;
- the contact-form validation `validateForm`, which puts the name, phone,
  email and course-count checks into a field-to-message map;
- the discount step function `getDiscount`;
- the quote arithmetic of `calculateTotal`: subtotal, discount, amount after
  discount, 15% VAT and total;
- the submit handler that computes a quote only for a valid form.

The modules follow the source's parts:

- `Catalogue` (catalogue.dfy): the `coursesData` records and the listing
  order of the calculator.
- `Text` (text.dfy): the whitespace class that `String.prototype.trim` and
  the regular-expression class `\s` share (ECMAScript WhiteSpace plus
  LineTerminator), `\d`, `trim()` and `replace(/\s/g, "")`.
- `Quote` (quote.dfy): `getDiscount` and the arithmetic of `calculateTotal`.
  Amounts are exact `real`s.
- `Validation` (validation.dfy): `validateForm` as a method that builds the
  error map step by step, as the source does. The map's entries are
  characterised on the raw field values. The email regular expression is
  given two independent definitions, which are proved equivalent.
- `Calculator` (calculator.dfy): which ticked boxes become fees and in what
  order, and the submit handler. It proves that ticking one more catalogue
  course always raises the quoted total.

## Model

| member | source | states |
|---|---|---|
| Catalogue.CatalogueWellFormed | website/script.js:2-63 | the catalogue has 4 six-month and 3 six-week courses; identifiers are unique; each group has its own category, duration and fee (R1500 / R750); every fee lies in [750, 1500] |
| Catalogue.IdsIndex | website/script.js:162 | an identifier names a listed course exactly when some course in the list carries it |
| Text.IsWhitespace | website/script.js:235-256 | the class shared by `trim()` and `\s`; no digit, no '@' and no '.' belongs to it |
| Text.Trim | website/script.js:235 | `trim()` is empty exactly when the input is all whitespace; otherwise the result neither starts nor ends with whitespace and is no longer than the input |
| Text.TrimBounds | website/script.js:235 | `trim()` cuts a whitespace-only prefix and suffix, and the characters at the two cut points are not whitespace |
| Text.TrimIdempotent | website/script.js:235 | trimming a trimmed value changes nothing |
| Text.RemoveWhitespace | website/script.js:246 | `replace(/\s/g, "")` leaves no whitespace and never lengthens the string |
| Text.RemoveWhitespaceEmptyIff | website/script.js:243-246 | deleting whitespace leaves nothing exactly when the value was all whitespace |
| Text.RemoveWhitespaceAppend | website/script.js:246 | deleting whitespace distributes over concatenation |
| Text.RemoveWhitespaceNoop | website/script.js:246 | a value without whitespace is left unchanged |
| Text.RemoveWhitespaceDrops | website/script.js:246 | a value with any whitespace character gets strictly shorter |
| Text.TrimKeepsContent | website/script.js:242-246 | deleting whitespace from the trimmed phone gives the same result as deleting it from the raw phone |
| Quote.DiscountRate | website/script.js:281-286 | the rate lies in [0, 0.15] and is 0 exactly for counts of at most one |
| Quote.DiscountRateTable | website/script.js:281-286 | rate 0 for 0 or 1 courses, 0.05 for 2, 0.10 for 3, 0.15 for 4 or more |
| Quote.DiscountRateClosedForm | website/script.js:281-286 | the rate is 5 percentage points per course beyond the first, with the count capped to [1, 4] |
| Quote.DiscountRateMonotonic | website/script.js:281-286 | more courses never give a smaller rate |
| Quote.RateDependsOnCountOnly | website/script.js:298 | two fee lists of the same length get the same rate, whatever their amounts |
| Quote.Price | website/script.js:298-302 | the breakdown keeps the subtotal, uses the rate for the count, splits the subtotal into discount plus amount after discount, and adds 15% VAT to the amount after discount |
| Quote.ComputeQuote | website/script.js:297-302 | the quote's subtotal is the sum of the fees, its rate the rate for their number, and no fees give a zero total |
| Quote.SumAppend | website/script.js:297 | the subtotal of a concatenation is the sum of the parts' subtotals |
| Quote.SumNonNegative | website/script.js:297 | non-negative fees give a non-negative subtotal; no fees give 0 |
| Quote.SumAtMost | website/script.js:297 | fees each at most b sum to at most b times their number |
| Quote.SumRemove | website/script.js:297 | taking one fee out of the list takes exactly it out of the subtotal |
| Quote.SumPermutation | website/script.js:297 | the subtotal does not depend on the order of the fees |
| Quote.QuoteDependsOnFeeMultiset | website/script.js:290-302 | the whole breakdown depends only on the multiset of selected fees |
| Quote.PriceClosedForm | website/script.js:298-302 | the stepwise steps give afterDiscount = subtotal·(1 − rate), vat = afterDiscount·0.15, and total = subtotal·(1 − rate)·1.15 |
| Quote.QuoteClosedForm | website/script.js:297-302 | for any fee list: subtotal = Σfees, rate = getDiscount(count), and total = subtotal·(1 − rate)·1.15 |
| Quote.QuoteBounds | website/script.js:297-302 | for non-negative fees: 0 ≤ discount ≤ subtotal, 0 ≤ afterDiscount ≤ subtotal, vat ≥ 0, total ≥ afterDiscount, and 0.9775·subtotal ≤ total ≤ 1.15·subtotal |
| Quote.EmptyQuote | website/script.js:297-302 | an empty selection gives an all-zero breakdown |
| Quote.QuoteTwoCourses | website/script.js:297-302 | fees [1500, 750] give 2250, 0.05, 112.5, 2137.5, 320.625, 2458.125 |
| Quote.QuoteFourCourses | website/script.js:297-302 | fees [1500, 1500, 1500, 750] give 5250, 0.15, 787.5, 4462.5, 669.375, 5131.875 |
| Quote.AddFeeSameRate | website/script.js:297-302 | where one more fee leaves the rate unchanged, the total grows by that fee discounted and taxed |
| Quote.AddComparableFeeRaisesTotal | website/script.js:297-302 | adding a fee larger than a fifth of every fee already present strictly raises the total, even when the rate steps up |
| Quote.AddCheapFeeCanLowerTotal | website/script.js:297-302 | with unbounded fees one more course can lower the total by more than its own fee |
| Validation.IsTenDigits | website/script.js:246 | `/^\d{10}$/` accepts only strings of length ten without whitespace |
| Validation.EmailShape | website/script.js:256 | a match of `^[^\s@]+@[^\s@]+\.[^\s@]+$` has at least five characters and does not start or end with whitespace |
| Validation.EmailShapeByParts | website/script.js:256 | a string of the by-parts description has at least five characters and contains '@' |
| Validation.EmailShapeOnlyByParts | website/script.js:256 | every match of `^[^\s@]+@[^\s@]+\.[^\s@]+$` has no whitespace, a single '@' that is not first, and a later '.' that neither follows the '@' directly nor comes last |
| Validation.EmailShapeFromParts | website/script.js:256 | every string of that description matches the regular expression |
| Validation.EmailShapeIff | website/script.js:256 | the regular expression and the description by parts accept exactly the same strings |
| Validation.IndexOf | website/script.js:256 | returns the first occurrence of the character at or after the start, or the length when there is none |
| Validation.ValidateForm | website/script.js:230-278 | error keys ⊆ {name, phone, email, courses}; valid ⇔ no errors; name error ⇔ the name is all whitespace; phone error ⇔ its whitespace-free form is not ten digits, with "required" exactly for a blank phone; email error ⇔ the trimmed email does not have the email shape, with "required" exactly for a blank email; courses error ⇔ no box is ticked; each message as in the source |
| Validation.TenDigitsAccepted | website/script.js:246 | a bare ten-digit number passes the phone test |
| Validation.PhoneAcceptsExample | website/script.js:246 | "0821234567" passes the phone test |
| Validation.PhoneRejectsExample | website/script.js:246 | "082 123 456" fails it: nine digits once the spaces are gone |
| Validation.EmailAcceptsExample | website/script.js:256 | "a@b.com" matches the email expression |
| Validation.EmailRejectsNoDot | website/script.js:256 | "a@b" does not match |
| Validation.EmailRejectsSecondAt | website/script.js:256 | "a@b@c.com" does not match |
| Calculator.Selected | website/script.js:262 | the ticked courses in listing order are never more than the listed courses |
| Calculator.SelectedAppend | website/script.js:162 | selecting from the six-month list and then the six-week list is selecting from the combined listing |
| Calculator.IdOnlyAt | website/script.js:162 | with unique identifiers, the identifier of a listed course occurs neither before nor after it |
| Calculator.FeesOf | website/script.js:291-294 | one fee per selected course |
| Calculator.SelectedMembers | website/script.js:160-167 | the selection holds exactly the listed courses whose box is ticked and is no longer than the listing |
| Calculator.SelectedCount | website/script.js:262-263 | with unique identifiers, the number of selected courses is the number of ticked identifiers in the listing |
| Calculator.HeadIdUnique | website/script.js:162 | with unique identifiers, the first course's identifier does not occur in the rest of the listing |
| Calculator.SelectedIgnoresOthers | website/script.js:290 | ticking an identifier that no listed course carries changes nothing |
| Calculator.TickInserts | website/script.js:162 | ticking a listed course inserts exactly that course into the selection, between the selection of the courses listed before it and that of the courses listed after it |
| Calculator.TickAddsFee | website/script.js:290-297 | ticking one more course adds one fee to the count and exactly its fee to the subtotal |
| Calculator.SelectedFeesBounded | website/script.js:291-294 | the fees of a selection from catalogue-range courses lie in [0, 1500] |
| Calculator.TickRaisesTotalIn | website/script.js:290-302 | for any listing with unique identifiers and fees in [750, 1500], ticking one more course strictly raises the total |
| Calculator.TickRaisesTotal | website/script.js:290-302 | in the calculator, ticking one more course strictly raises the total |
| Calculator.CalculatorSelectedCount | website/script.js:262 | the number of ticked calculator boxes is the number of ticked catalogue identifiers |
| Calculator.Submit | website/script.js:202-207 | a quote is produced exactly when the error map is empty; the error keys stay within the four fields; the name, phone and email entries and their messages are those of `validateForm`; a courses error appears exactly when no catalogue course is ticked; the quote is the breakdown of the ticked fees in listing order, at the rate for the number ticked |

## Left out

- Everything that touches the page is not modelled: navigation, the course cards, building the calculator's checkboxes, event wiring, clearing errors on input, and the display part of `calculateTotal` (website/script.js:305-337). Of the checkbox building, the model keeps only the listing order (website/script.js:162).
- The loop over `Object.keys(errors)` that writes messages into the page (website/script.js:268-275) is not modelled. The model returns the error map instead.
- `toFixed(2)` currency formatting and any rounding are not modelled. They happen only at display time.
- `Number.parseFloat(checkbox.dataset.fee)` is not modelled. The attribute holds the catalogue's integer fee, which parses back to the same value, so the model reads the fee directly.
- JavaScript numbers are IEEE doubles, but the model uses exact reals. `0.05`, `0.1` and `0.15` are not exact in binary, so the source's results can differ from the model's in the last bits.
- Text.IsWhitespace: the set of Unicode space separators is fixed at the current ECMAScript list. A JavaScript engine built on another Unicode version may differ.
- The form's field values and the set of ticked boxes become parameters of `Validation.ValidateForm` and `Calculator.Submit`. They are not read from a page.
- `lib/supabase.ts` and `app/page.tsx` are not part of this model; they are data access and a landing page.
- The mobile client's calculator (app/(tabs)/calculator.tsx:79-128) is a second copy of the same checks, discount table and arithmetic, and is not modelled. It differs in one place: it tests the untrimmed email against the pattern (app/(tabs)/calculator.tsx:94), so an email with surrounding whitespace that the website accepts is rejected there. Its phone check uses the untrimmed phone, which `Text.TrimKeepsContent` shows gives the same outcome.
- Strings are modelled as sequences of Unicode scalar values, while JavaScript strings are sequences of UTF-16 code units; a lone surrogate cannot be written in the model. No surrogate is whitespace, a digit, '@' or '.', and a character outside the Basic Multilingual Plane is one plain character in the model where JavaScript sees two plain code units, so none of the four checks changes its outcome.
- A natural expectation is that adding a course never lowers the total by more than the added fee. That is not true for arbitrary fees (`Quote.AddCheapFeeCanLowerTotal`). It does hold, with a strict increase, for catalogue fees (`Calculator.TickRaisesTotal`), which is the only case the site can produce.
