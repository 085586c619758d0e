# French tax calculators: a Dafny model

This project models the progressive-bracket tax engine of `taxation-lib.js`:

- **the décote** (`calculateDecote`), the rebate on small amounts of personal income tax;
- **personal income tax** (`calculateIR`, impôt sur le revenu). The household's income is divided by its family quotient. The per-part income is walked through the five-bracket table `TAX_RATES_IR`, and a breakdown entry is recorded for each bracket reached. The per-part tax is then scaled back by the quotient, and the décote is taken off with a floor at zero;
- **corporate tax** (`calculateIS`, impôt sur les sociétés). A profit of at most 10,000,000 (`PME_REVENUE_THRESHOLD`) goes through the two-bracket table `TAX_RATES_IS`: 15% up to 42,500, then 25%. A larger profit is taxed at a flat 25%.

Money and rates are Dafny `real`s. The modules are:

- `Brackets` (`brackets.dfy`): the shared bracket walk. A table is a sequence of `Bracket(min, max, rate)`, and `max` is a `Bound` in which `Unbounded` stands for JavaScript's `Infinity`. `Evaluate` walks a table recursively and returns the total and one `Entry` per bracket reached.
- `Rebate` (`rebate.dfy`): the décote tables and `Decote`.
- `PersonalIncomeTax` (`income_tax.dfy`): the income-tax table as the library states it, the function `IncomeTax`, and `CalculateIR`. `CalculateIR` is the library's loop, proved equal to `IncomeTax`.
- `CorporateIncomeTax` (`corporate_tax.dfy`): the corporate-tax table, `CorporateTax`, and `CalculateIS`. `CalculateIS` is the library's loop, proved equal to `CorporateTax`.

The income-tax table is reproduced exactly. Its third bracket ends at 82341 and its fourth starts at 82342. Per-part income between the two is taxed by no bracket, so the per-part tax stays flat there (`GapAddsNothing`, `PerPartClosedForm`).

Within the threshold, `calculateDecote` returns `decoteMax - 0.4525 * tax` when the tax exceeds that amount, and the tax itself otherwise. That is the smaller of the two, which caps the rebate at the tax. The model follows this code. A reading that floors the formula at zero instead, `max(0, decoteMax - 0.4525 * tax)`, gives a different rebate for every tax below `decoteMax / 1.4525` (about 601.03 for one part and 994.15 otherwise). For one part and a tax of 100, the code's rebate is 100 and that reading's is 827.75 (`UncappedDecoteDiffers`, `UncappedDecoteExample`). The tax after the décote is the same under both readings for every tax (`UncappedDecoteSameRemainder`).

Breakdown entries keep their amounts as reals. A range label `min*q - max*q` is modelled as the entry's `lo` and `hi` fields, scaled by the quotient.

## Model

| member | source | states |
|---|---|---|
| Brackets.Taxable | taxation-lib.js:42-43 | The taxed part of the income is `min(x, max) - min`, or `x - min` for the unbounded bracket. It never exceeds the bracket width or `x - min`, and it is positive whenever a well-formed bracket is reached. |
| Brackets.Evaluate | taxation-lib.js:41-45 | The walk's total is the sum of the amounts of its entries, and it has at most one entry per bracket. |
| Brackets.EvaluateSnoc | taxation-lib.js:41-55 | Adding a bracket at the end of the table extends the walk by that bracket's entry exactly when the income exceeds its lower end, as the left-to-right loop does. |
| Brackets.EntryAmountMonotone | taxation-lib.js:42-44 | A reached well-formed bracket's tax is non-negative and does not decrease as income grows. |
| Brackets.EvaluateNonNegative | taxation-lib.js:41-45 | With non-negative rates and positive widths (every bracket well formed), the walk's total is never negative. |
| Brackets.EvaluateMonotone | taxation-lib.js:41-45 | With non-negative rates and positive widths the total does not decrease in income. |
| Brackets.EntriesFollowTable | taxation-lib.js:41-47 | In a layered table, bracket i has an entry iff the income exceeds its lower end. The entries form a prefix of the table in table order, and entry i is bracket i's range, taxable amount and tax. |
| Brackets.EvaluateWithinCap | taxation-lib.js:41-45 | In a layered table whose rates are at most `cap`, the total is at most `cap` times the income above the first lower end. |
| Rebate.PartsRow | taxation-lib.js:7-12 | The one-part row of the décote tables is used exactly when the quotient equals 1, and the two-part row otherwise. |
| Rebate.Decote | taxation-lib.js:2-23 | Above the selected threshold (1929 or 3191) there is no rebate. Up to it the rebate is the smaller of the tax and `max - 0.4525*tax`. For a non-negative tax it lies in `[0, tax]` and never exceeds the maximum (873 or 1444). It is positive for positive tax within the threshold. |
| Rebate.TaxAfterDecote | taxation-lib.js:58-59 | The tax after the rebate is never negative. It is at most the tax when the tax is non-negative, and equals the tax above the threshold. |
| Rebate.AfterDecoteClosedForm | taxation-lib.js:14-20 | Within the threshold, the remaining tax is `max(0, 1.4525*tax - maximum)`. |
| Rebate.UncappedDecoteSameRemainder | taxation-lib.js:14-22 | Flooring the rebate formula at zero instead of capping it at the tax leaves the same tax after the décote, for every tax. |
| Rebate.UncappedDecoteDiffers | taxation-lib.js:14-20 | The library's rebate differs from the floored formula exactly when `1.4525 * tax` is below the maximum. The library's rebate is then the tax itself, which is smaller. |
| Rebate.UncappedDecoteExample | taxation-lib.js:14-20 | An illustration of `UncappedDecoteDiffers`: for one part and a tax of 100, the library's rebate is 100 and the floored formula's is 827.75. |
| Rebate.AfterDecoteMonotone | taxation-lib.js:14-22 | The remaining tax never decreases as the tax grows, even across the threshold. |
| PersonalIncomeTax.ScaleEntries | taxation-lib.js:47-53 | The household breakdown has one entry per per-part entry, each with its range and amounts multiplied by the quotient. |
| PersonalIncomeTax.ScaledSum | taxation-lib.js:47-57 | Scaling every entry by the quotient scales the sum of the amounts by the quotient. |
| PersonalIncomeTax.TableIsLayered | taxation-lib.js:28-34 | The income-tax table is layered and well formed: the brackets are ordered and do not overlap. No rate exceeds 45%. |
| PersonalIncomeTax.IncomeTax | taxation-lib.js:36-62 | The result's décote is the rebate on its tax. The tax after the décote is never negative, and it is at most the tax when the tax is non-negative. There are at most five breakdown entries. |
| PersonalIncomeTax.ScaleEntriesSnoc | taxation-lib.js:47-53 | Scaling distributes over appending one entry, as the loop's `push` does. |
| PersonalIncomeTax.WalkStep | taxation-lib.js:41-55 | Take a running total and breakdown equal to the walk over the first i brackets. When bracket i is reached, adding its tax and pushing its scaled entry gives the walk over i + 1 brackets. Otherwise the walk over i + 1 brackets is unchanged. |
| PersonalIncomeTax.WalkBrackets | taxation-lib.js:37-55 | The library's loop over any table computes the recursive walk's total and its breakdown scaled by the quotient. Its body step `BracketStep` computes a reached bracket's clamped taxable amount times its rate and pushes the entry with range and amounts multiplied by the quotient. |
| PersonalIncomeTax.CalculateIR | taxation-lib.js:36-62 | The library's procedure returns exactly `IncomeTax`. |
| PersonalIncomeTax.PerPartClosedForm | taxation-lib.js:28-45 | The per-part tax in closed form has six pieces. It is 0 up to 11294, then 11%, 30%, 41% and 45%, with a flat piece on (82341, 82342]. |
| PersonalIncomeTax.HouseholdTaxMonotone | taxation-lib.js:37-57 | For a fixed positive quotient the household tax does not decrease in income. |
| PersonalIncomeTax.HouseholdTaxNonNegative | taxation-lib.js:28-57 | With a positive quotient the household tax is never negative. |
| PersonalIncomeTax.BreakdownSumsToTax | taxation-lib.js:44-57 | The breakdown's amounts add up to the tax before the décote. |
| PersonalIncomeTax.IncomeTaxZeroInFirstBracket | taxation-lib.js:28-59 | Per-part income of at most 11294 owes no tax before or after the décote. |
| PersonalIncomeTax.GapAddsNothing | taxation-lib.js:31-32 | Any two incomes whose per-part income lies in [82341, 82342] owe the same tax. |
| PersonalIncomeTax.PerPartFlatInGap | taxation-lib.js:31-32 | Per-part income anywhere in [82341, 82342] owes a per-part tax of exactly 17988.53. |
| PersonalIncomeTax.HouseholdFlatInGap | taxation-lib.js:31-57 | A household whose per-part income lies in [82341, 82342] owes 17988.53 times its quotient. |
| PersonalIncomeTax.BreakdownFollowsTable | taxation-lib.js:41-53 | Bracket i has a breakdown entry iff the per-part income exceeds its lower end. Entry i is bracket i's range, taxable amount and tax, each scaled by the quotient. |
| PersonalIncomeTax.IncomeTaxMonotone | taxation-lib.js:28-59 | For a fixed positive quotient, more income never means less tax, before or after the décote. |
| PersonalIncomeTax.HouseholdTaxWithinTopRate | taxation-lib.js:28-57 | The household tax on a non-negative income is at most 45% of that income. |
| PersonalIncomeTax.IncomeTaxWithinTopRate | taxation-lib.js:28-57 | The tax before the décote is at most 45% of a non-negative income. |
| PersonalIncomeTax.AfterDecoteWithinTax | taxation-lib.js:57-59 | With a positive quotient, the tax after the décote lies between zero and the tax before it. |
| CorporateIncomeTax.CapAt | taxation-lib.js:81 | `Math.min(profit, max)` is at most the profit and at most a finite `max`, and it is one of the two. |
| CorporateIncomeTax.BracketPathClosedForm | taxation-lib.js:71-82 | The bracket walk is 0 on a loss, 15% up to 42500, and 6375 plus 25% of the excess above it. |
| CorporateIncomeTax.CorporateTax | taxation-lib.js:64-89 | A loss owes nothing. Up to 42500 the tax is 15% of the profit, and up to 10,000,000 it is 6375 plus 25% of the excess. Above that it is 25% of the whole profit. |
| CorporateIncomeTax.CalculateIS | taxation-lib.js:76-89 | The library's procedure, with its loop, returns exactly `CorporateTax`. |
| CorporateIncomeTax.CorporateTaxCliff | taxation-lib.js:77-87 | Above 10,000,000 the flat rate charges exactly 4250 more than the bracket walk would. |
| CorporateIncomeTax.CorporateTaxMonotone | taxation-lib.js:76-89 | More profit never means less corporate tax, including across the jump at the threshold. |
| CorporateIncomeTax.CorporateTaxBounds | taxation-lib.js:66-87 | On a non-negative profit the tax lies between 15% and 25% of the profit. |

## Left out

- Breakdown strings: the range label text with its `∞` and the `toFixed(0)` rounding of amounts are not modelled. The entries keep the unrounded amounts and the bounds as numbers.
- Floating point: all arithmetic is exact real arithmetic. IEEE-754 rounding, `NaN` and `Infinity` as results are not modelled.
- PersonalIncomeTax.IncomeTax: requires a non-zero quotient. With a zero quotient and a profit of at most 0, the library's per-part income is `NaN` or `-Infinity`. No bracket is reached, and the library returns a tax, décote and remaining tax of 0 with an empty breakdown. With a zero quotient and a positive profit, the per-part income is `Infinity`. The tax is then `Infinity * 0`, which is `NaN`, the décote is 0, and the remaining tax is `NaN`. Neither case is modelled, because a zero quotient yields non-real values. The lemmas about `IncomeTax` further assume a positive quotient.
- Default arguments (`familyQuotient = 1`) and non-numeric arguments are not modelled. Every argument is an explicit real.
- The constants at taxation-lib.js:94-105 (EURL/SASU social contribution rates, the EURL minimum contribution, the PFU rates) are not modelled. No function in the file reads them.
- The self-employed, gross-to-net and flat-tax calculators are not part of this model.
