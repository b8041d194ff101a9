/**
 The two deduction implementations side by side: the tiered rules of the
 `Payroll` record and the flat placeholder helpers. They agree on the pension
 up to its cap and nowhere else in general.
 */
module Divergence {
  import opened Money
  import Utils
  import PayrollRules
  import Employees

  /** Below the cap the tiered pension is exactly 6% of gross, so both
      implementations agree, negative gross included. */
  lemma NssfAgreeUpToCap(gross: real)
    requires gross <= 36000.0
    ensures Utils.CalcNssf(gross) == PayrollRules.CalculateNssf(gross)
  {
    assert PayrollRules.NssfTiers(gross) == gross * 0.06;
  }

  /** Above the cap the flat placeholder takes more than the tiered rule. */
  lemma NssfPlaceholderExceedsCap(gross: real)
    requires gross >= 36000.1
    ensures Utils.CalcNssf(gross) > PayrollRules.CalculateNssf(gross)
  {
    PayrollRules.NssfBounds(gross);
    Round2Monotone(216001.0 / 100.0 - 0.004, gross * 0.06);
    RoundHalfEvenUnique(216000.6, 216001);
  }

  /** The flat rate on the whole gross is never less than the marginal tax on
      gross less pension, so the placeholder never withholds less PAYE. */
  lemma PlaceholderPayeNeverLower(gross: real)
    requires gross >= 0.0
    ensures Utils.CalcPaye(gross) >= PayrollRules.CalculatePaye(gross - PayrollRules.CalculateNssf(gross))
  {
    PayrollRules.NssfBounds(gross);
    PayrollRules.PayeMonotone(gross - PayrollRules.CalculateNssf(gross), gross);
    var marginal := PayrollRules.BandTax(PayrollRules.PayeBands, gross);
    var flat := gross * Utils.FlatPayeRate(gross);
    PayrollRules.PayeBandTaxClosedForm(gross);
    if gross <= 24000.0 {
      assert flat == gross * 0.10;
    } else if gross <= 32333.0 {
      assert flat == gross * 0.25;
    } else {
      assert flat == gross * 0.30;
    }
    Round2Monotone(marginal, flat);
  }

  /** At gross 35000 the two PAYE implementations differ by more than half. */
  lemma PayeDisagreeAt35000()
    ensures Utils.CalcPaye(35000.0) == 10500.0
    ensures PayrollRules.CalculatePaye(35000.0 - PayrollRules.CalculateNssf(35000.0)) == 4653.35
  {
    IntegerIsWholeCents(10500);
    Round2OfWholeCents(10500.0);
    PayrollRules.NssfExamples();
    PayrollRules.PayeClosedForm(32900.0);
    assert 4483.25 + 0.30 * (32900.0 - 32333.0) == 4653.35;
    Round2OfWholeCents(4653.35);
  }

  /** At gross 35000 the health deductions differ: 2% is 700, the bracket is 950. */
  lemma ShaDisagreeAt35000()
    ensures Utils.CalcSha(35000.0) == 700.0
    ensures PayrollRules.CalculateSha(35000.0) == 950.0
  {
    IntegerIsWholeCents(700);
    Round2OfWholeCents(700.0);
    PayrollRules.NhifExamples();
  }

  /** The employee preview and the saved payroll give different net pay for
      the same monthly salary. */
  lemma NetPayDisagreeAt35000()
    ensures Employees.CalculateNetSalary(35000.0).net == 21700.0
    ensures PayrollRules.Save(35000.0, 0.0).netPay == 27296.65
  {
    Employees.NetSalaryExample();
    PayrollRules.SaveSteps(35000.0, 0.0);
    PayeDisagreeAt35000();
    PayrollRules.NhifExamples();
    Round2OfWholeCents(27296.65);
  }
}
