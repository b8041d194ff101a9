# Payroll deduction engine

This project models the payroll deduction engine of an HR web application.
The engine turns a salary into three statutory deductions and a net pay:

- a pension contribution (NSSF);
- a social health insurance contribution (SHA, formerly NHIF);
- an income tax (PAYE).

The application contains two independent implementations of the engine. Both
are modelled separately, as pure functions over exact decimal money.

- **The `Payroll` record** (module `PayrollRules`, from `core/models.py`):
  - a two-tier 6% pension contribution;
  - a 17-bracket flat-amount health lookup;
  - a marginal three-band income tax;
  - the arithmetic of the record's `save` hook. Gross is basic salary plus
    allowances. Pension and health are taken from gross, tax from gross less
    pension, and net pay is gross less all three, rounded to cents.
- **The placeholder helpers** (module `Utils`, from `core/utils.py`):
  - `calc_nssf` and `calc_sha` are flat percentages of gross;
  - `calc_paye` picks one rate from the gross and applies it to the whole
    gross.
  - `Employee.calculate_net_salary` (module `Employees`) builds a pay preview
    from these helpers.

`LeaveRequest.duration` counts the days of a leave request, both ends
included (module `Leaves`). It works on Python's proleptic Gregorian day
ordinal (module `Calendar`).

Module `Divergence` relates the two implementations. They agree on the
pension up to its cap, and disagree on tax, health and net pay; gross 35000
is the worked example.

Money is Dafny's `real`. Python's `Decimal` values are exact finite decimals,
so sums, differences, products, `min`, `max` and comparisons agree with real
arithmetic. `quantize(Decimal('0.01'))` under the default decimal context
rounds to the nearest cent and breaks ties to the even cent. `Money.Round2`
is that rounding step, written out.

## Behaviour worth knowing

- **Rounding is half-even.** Every `quantize(Decimal('0.01'))` runs under
  the default decimal context, so a value exactly half a cent from two cents
  goes to the even one. For example, 10% of 0.25 taxes to 0.02
  (`PayrollRules.PayeRoundsHalfEven`).
- **No input is validated.** `Payroll.save` accepts any numeric basic salary
  and allowances, negative ones included. Every deduction is therefore
  modelled as total over all reals.
- **Pension tier 1 is not clamped.** Tier 1 is `min(gross, 7000) * 0.06`, so
  a negative gross gives a negative pension (`PayrollRules.NssfNegative`).
- **A gross of 0 pays 150 for health.** The first health bracket covers every
  gross up to 5999, including 0. A gross from 0 to 149 is saved with a health
  deduction of 150 and a negative net pay
  (`PayrollRules.SaveSmallGrossNegativeNet`).
- **The top band and the top bracket are finite.**
  - The top tax band has width 999999999. Taxable income above
    24000 + 8333 + 999999999 is not taxed (`PayrollRules.PayeFlatAboveBands`).
  - The top health bracket ends at 999999999. A larger gross falls through
    to 0.00 (`PayrollRules.NhifZeroIff`).

## Model

| member | source | states |
|---|---|---|
| Money.Round2 | core/models.py:167 | the result is a whole number of cents within half a cent of the argument, and an even number of cents when the argument lies exactly half-way |
| Money.Round2Characterised | core/models.py:167 | a value is the rounding of x exactly when it is a cent nearest to x that, on a tie, is the even cent |
| Money.RoundHalfEvenUnique | core/models.py:167 | the only integer within 1/2 of x that is even on a tie is the half-even rounding of x |
| Money.RoundHalfEven | core/models.py:167 | the integer is within 1/2 of the argument, and is even when exactly 1/2 away |
| Money.Round2TiesToEven | core/models.py:167 | ties go to the even cent: 0.025 gives 0.02, 0.015 gives 0.02, 0.005 gives 0.00 |
| Money.Round2FixedIff | core/models.py:214 | rounding to cents leaves an amount unchanged exactly when it is already in whole cents |
| PayrollRules.BandTax | core/models.py:160-166 | no ensures; the band loop as a recursion over the bands, characterised by PayeBandTaxClosedForm and CalculatePayeLoop |
| PayrollRules.CalculatePaye | core/models.py:153-167 | no ensures; see PayeClosedForm, PayeMonotone, PayeBounds and PayeNonNegative |
| PayrollRules.PayeBandTaxClosedForm | core/models.py:155-166 | the band loop's unrounded tax is piecewise linear: 0 for income ≤ 0, 10% up to 24000, 2400 + 25% of the excess up to 32333, 4483.25 + 30% of the excess up to the end of the last band, constant beyond it |
| PayrollRules.PayeClosedForm | core/models.py:153-167 | `calculate_paye` is the cent rounding of that closed form, and 0.00 for non-positive taxable income |
| PayrollRules.CalculatePayeLoop | core/models.py:153-167 | the loop over the bands with its early break computes the marginal tax that the band recursion defines |
| PayrollRules.PayeExamples | core/models.py:153-167 | tax(-100) = tax(0) = 0.00, tax(24000) = 2400.00, tax(32333) = 4483.25 |
| PayrollRules.PayeRoundsHalfEven | core/models.py:167 | a half-cent tax rounds to the even cent: tax(0.25) = 0.02 |
| PayrollRules.PayeNonNegative | core/models.py:153-167 | the tax is never negative |
| PayrollRules.PayeMonotone | core/models.py:153-167 | the tax never falls when taxable income rises |
| PayrollRules.PayeBounds | core/models.py:153-167 | within the bands, the tax on t lies between 10% and 30% of t, up to half a cent |
| PayrollRules.PayeFlatAboveBands | core/models.py:155-166 | income beyond the end of the last band is not taxed |
| PayrollRules.LookupFrom | core/models.py:179-182 | no ensures; the bracket scan from index i, characterised by LookupFromFirstCovering |
| PayrollRules.BracketLookup | core/models.py:179-182 | no ensures; the scan from the first bracket, characterised by BracketLookupFirstCovering |
| PayrollRules.CalculateNhif | core/models.py:170-182 | no ensures; see NhifFirstCovering, NhifZeroIff, NhifMonotone and NhifInTable |
| PayrollRules.LookupFromFirstCovering | core/models.py:179-182 | the scan from bracket i yields the amount of the first covering bracket, or 0.00 when none covers |
| PayrollRules.BracketLookupFirstCovering | core/models.py:179-182 | the lookup yields the amount of the first bracket whose limit is at least gross, or 0.00 when no bracket covers it |
| PayrollRules.NhifFirstCovering | core/models.py:170-182 | `calculate_nhif` returns the flat amount of the first covering bracket, and 0.00 above 999999999 |
| PayrollRules.NhifBracketsAscending | core/models.py:171-178 | the 17 limits strictly ascend and the amounts never decrease |
| PayrollRules.NhifMonotone | core/models.py:170-182 | up to the last limit, the health amount is non-decreasing in gross |
| PayrollRules.NhifInTable | core/models.py:170-182 | up to the last limit, the health amount is one of the table's 17 amounts |
| PayrollRules.NhifZeroIff | core/models.py:179-182 | the 0.00 fallback is returned exactly when gross exceeds 999999999 |
| PayrollRules.NhifExamples | core/models.py:170-182 | 5999 gives 150, 6000 gives 300, 35000 gives 950, 100000 gives 1700, 999999999 gives 1700 |
| PayrollRules.NhifWholeCents | core/models.py:179-182 | every health amount, the fallback included, is in whole cents |
| PayrollRules.CalculateSha | core/models.py:184-185 | the health amount is the flat amount of the first bracket whose limit is at least gross, and 0.00 above 999999999 |
| PayrollRules.NssfTiers | core/models.py:189-191 | no ensures; the two unrounded tiers, characterised by NssfClosedForm |
| PayrollRules.CalculateNssf | core/models.py:188-192 | no ensures; see NssfClosedForm, NssfBounds, NssfMonotone and NssfNegative |
| PayrollRules.NssfClosedForm | core/models.py:188-192 | for gross ≥ 0, the pension is Round2(6% of min(gross, 7000) + 6% of the excess over 7000 capped at 29000); for gross < 0 it is Round2(6% of gross) |
| PayrollRules.NssfMonotone | core/models.py:188-192 | the pension never falls when gross rises, negative gross included |
| PayrollRules.NssfBounds | core/models.py:188-192 | for gross ≥ 0 the pension lies in [0, 2160.00], and equals 2160.00 from gross 36000 on |
| PayrollRules.NssfNegative | core/models.py:188-192 | a negative gross gives a pension ≤ 0, strictly negative from gross −0.10 down, so there is no clamp |
| PayrollRules.NssfRoundsHalfEven | core/models.py:192 | a half-cent pension rounds to the even cent: pension(0.75) = 0.04 |
| PayrollRules.NssfExamples | core/models.py:188-192 | 7000 gives 420.00, 35000 gives 2100.00, 36000 and 50000 give 2160.00 |
| PayrollRules.Save | core/models.py:195-214 | the saved record keeps basic salary and allowances, gross is their sum, and pension, tax and net pay are whole cents |
| PayrollRules.NetRoundingExactIff | core/models.py:214 | with whole-cent deductions, rounding the net loses nothing exactly when gross is in whole cents |
| PayrollRules.BalancedIff | core/models.py:214 | a record with whole-cent deductions and a rounded net pay balances exactly when its gross is in whole cents |
| PayrollRules.SaveBalancedIff | core/models.py:201-214 | a saved record's net pay plus its three deductions equals its gross exactly when basic + allowances is in whole cents |
| PayrollRules.SaveBalanced | core/models.py:201-214 | whole-cent basic salary and allowances always give a record that balances to the cent |
| PayrollRules.SaveIdempotent | core/models.py:195-214 | saving again from the stored basic salary and allowances reproduces every stored field |
| PayrollRules.SaveExample | core/models.py:195-214 | 30000 + 5000 gives gross 35000, pension 2100.00, tax 4653.35, health 950, net 27296.65 |
| PayrollRules.SaveSmallGrossNegativeNet | core/models.py:195-214 | a gross from 0 to 149 saves a health deduction of 150 and a negative net pay |
| PayrollRules.SaveHealthFromGross | core/models.py:207-211 | at gross 6000, health from gross is 300, while from taxable income (5640) it would be 150 |
| Utils.CalcNssf | core/utils.py:15-17 | `calc_nssf` is the cent nearest to 6% of gross, the even cent on a tie, with no tiers and no cap |
| Utils.CalcSha | core/utils.py:19-21 | `calc_sha` is the cent nearest to 2% of gross, the even cent on a tie |
| Utils.FlatPayeRate | core/utils.py:25-30 | the selected rate is one of 0.10, 0.25 and 0.30 |
| Utils.CalcPaye | core/utils.py:23-31 | `calc_paye` is the cent nearest to 10% (gross ≤ 24000), 25% (up to 32333) or 30% (above) of the whole gross, the even cent on a tie |
| Utils.HelpersRoundHalfEven | core/utils.py:15-31 | ties go to the even cent: calc_sha(0.25) = 0.00, calc_paye(0.05) = 0.00, calc_nssf(0.75) = 0.04 |
| Utils.FlatPayeRateMonotone | core/utils.py:25-30 | the selected rate never falls as gross rises |
| Utils.FlatTaxMonotone | core/utils.py:23-31 | before rounding, the flat tax grows with a non-negative gross |
| Utils.HelpersNonNegative | core/utils.py:15-31 | for gross ≥ 0, all three helpers return amounts ≥ 0 |
| Utils.HelpersMonotone | core/utils.py:15-31 | for 0 ≤ g1 ≤ g2, each helper's result at g1 is at most its result at g2 |
| Utils.HelpersNegative | core/utils.py:15-31 | a negative gross gives non-positive amounts from all three helpers |
| Utils.CalcPayeJumps | core/utils.py:25-31 | the tax jumps at each threshold: 24000 gives 2400.00 but 24000.01 gives 6000.00; 32333 gives 8083.25 but 32333.01 gives 9699.90 |
| Employees.CalculateNetSalary | core/models.py:57-64 | the preview keeps the salary as gross and other = 0.00, its three deductions are whole cents, and net plus all deductions equals gross exactly |
| Employees.NetSalaryBounds | core/models.py:57-64 | for a salary ≥ 0 the preview's net pay lies between 0 and the salary |
| Employees.NetSalaryWholeCents | core/models.py:63 | a whole-cent salary gives a whole-cent net pay, though the net pay is never rounded |
| Employees.NetSalaryExample | core/models.py:57-64 | salary 35000 gives pension 2100, health 700, tax 10500, net 21700 |
| Calendar.DaysInMonth | core/models.py:107 | a month has 28 to 31 days, and February has 29 exactly in leap years |
| Calendar.DaysBeforeMonth | core/models.py:107 | the days before month m number between 28 and 31 per preceding month |
| Calendar.Ordinal | core/models.py:107 | no ensures; `date.toordinal()`, and date subtraction is the difference of two ordinals; see OrdinalMonotone and OrdinalInjective |
| Calendar.OrdinalMonotone | core/models.py:107 | the day ordinal strictly increases in chronological order |
| Calendar.OrdinalInjective | core/models.py:107 | distinct dates have distinct day ordinals |
| Calendar.NextDayOrdinal | core/models.py:107 | the next calendar day is exactly one ordinal later |
| Leaves.Duration | core/models.py:106-107 | the duration is at least 1 exactly when the end date is not before the start date, and exactly 1 when the two dates are equal |
| Leaves.DurationOfConsecutiveDays | core/models.py:106-107 | a request from one day to the next lasts 2 days |
| Leaves.DurationExtendByOneDay | core/models.py:106-107 | moving the end date one day later lengthens the request by exactly one day |
| Divergence.NssfAgreeUpToCap | core/utils.py:15-17 | up to gross 36000 the flat pension helper equals the tiered pension, negative gross included |
| Divergence.NssfPlaceholderExceedsCap | core/utils.py:15-17 | from gross 36000.10 up, the flat pension helper takes strictly more than the capped tiered pension |
| Divergence.PlaceholderPayeNeverLower | core/utils.py:23-31 | for gross ≥ 0, the flat helper's tax on the whole gross is never below the marginal tax on gross less pension |
| Divergence.PayeDisagreeAt35000 | core/utils.py:23-31 | at gross 35000 the helper taxes 10500.00 and the `Payroll` rule taxes 4653.35 |
| Divergence.ShaDisagreeAt35000 | core/utils.py:19-21 | at gross 35000 the health helper gives 700.00 and the bracket lookup gives 950 |
| Divergence.NetPayDisagreeAt35000 | core/models.py:57-64 | for salary 35000 the preview's net pay is 21700 and the saved record's is 27296.65 |

## Left out

- **HTTP views** are not modelled: authentication, ORM queries, PDF
  rendering, notifications, and the pay-period computation from
  `date.today()`. They are I/O around the engine.
- **`generate_payroll_for_employee`** (core/views.py) is not modelled. Its
  pension, tax and net values are overwritten by `Payroll.save`. It also
  leaves `basic_salary` unset, so `Decimal(None)` would raise in `save`.
- **Persistence** by `super().save`, Django field declarations, and
  validators are not modelled. `DecimalField(max_digits=10)` would keep
  stored amounts far below the 999999999 sentinels.
- **`KPI.rating`** is not modelled. It uses float division and a bare
  `except`, and is not part of the deduction engine.
- **Authorisation helpers** are not modelled: `group_required`,
  `HRRequiredMixin` and `core/decorators.py`. Routing, admin, forms and the
  server launcher hold no logic and are not modelled either.
- **The decimal context's 28-digit precision** is not modelled, nor the
  `InvalidOperation` it raises. Real arithmetic is exact, and it matches
  `Decimal` while results stay within that precision.
- **`Decimal(...)` coercion of non-numeric input** in `save` is not
  modelled. Inputs are already reals here.
- Leaves.Duration: the dates are `CalendarDate` values (years 1 to 9999, valid months and days), as a `datetime.date` guarantees; the helper `Calendar.NextDay` exists only to state the lemmas about consecutive days.
- Utils.HelpersMonotone: requires a non-negative gross, because `calc_paye` on a negative gross is not monotone (a higher rate makes the tax more negative).
- PayrollRules.NhifMonotone: holds only up to the last limit 999999999, because beyond it the lookup falls to 0.00.
- PayrollRules.PayeBounds: holds only within the bands, because income beyond the last band is untaxed and the 10% lower bound eventually fails there.
