/**
 The placeholder deduction helpers `calc_nssf`, `calc_sha` and `calc_paye`:
 flat percentages of gross, rounded to cents. `calc_paye` picks one rate from
 the gross and applies it to the whole gross; it is not a marginal tax.
 */
module Utils {
  import opened Money

  /** `calc_nssf`: 6% of gross, to the nearest cent (ties to even), no tiers
      and no cap. */
  function CalcNssf(gross: real): (r: real)
    ensures NearestEvenCent(0.06 * gross, r)
  {
    Round2(gross * 0.06)
  }

  /** `calc_sha`: 2% of gross, to the nearest cent (ties to even); not a
      bracket lookup. */
  function CalcSha(gross: real): (r: real)
    ensures NearestEvenCent(0.02 * gross, r)
  {
    Round2(gross * 0.02)
  }

  /** The single rate `calc_paye` selects from the gross. */
  function FlatPayeRate(gross: real): (rate: real)
    ensures rate == 0.10 || rate == 0.25 || rate == 0.30
  {
    if gross <= 24000.0 then 0.10
    else if gross <= 32333.0 then 0.25
    else 0.30
  }

  /** `calc_paye`: the selected rate applied to the whole gross, to the
      nearest cent (ties to even). */
  function CalcPaye(gross: real): (r: real)
    ensures gross <= 24000.0 ==> NearestEvenCent(0.10 * gross, r)
    ensures 24000.0 < gross <= 32333.0 ==> NearestEvenCent(0.25 * gross, r)
    ensures gross > 32333.0 ==> NearestEvenCent(0.30 * gross, r)
  {
    Round2(gross * FlatPayeRate(gross))
  }

  /** The selected rate never falls as gross rises. */
  lemma FlatPayeRateMonotone(g1: real, g2: real)
    requires g1 <= g2
    ensures FlatPayeRate(g1) <= FlatPayeRate(g2)
  {
  }

  /** For a non-negative gross every helper returns a non-negative amount. */
  lemma HelpersNonNegative(gross: real)
    requires gross >= 0.0
    ensures CalcNssf(gross) >= 0.0
    ensures CalcSha(gross) >= 0.0
    ensures CalcPaye(gross) >= 0.0
  {
    Round2OfWholeCents(0.0);
    Round2Monotone(0.0, gross * 0.06);
    Round2Monotone(0.0, gross * 0.02);
    Round2Monotone(0.0, gross * FlatPayeRate(gross));
  }

  /** Every helper is non-decreasing in gross. For `calc_paye` this needs a
      non-negative gross: a negative gross taxed at a higher rate goes down. */
  lemma HelpersMonotone(g1: real, g2: real)
    requires 0.0 <= g1 <= g2
    ensures CalcNssf(g1) <= CalcNssf(g2)
    ensures CalcSha(g1) <= CalcSha(g2)
    ensures CalcPaye(g1) <= CalcPaye(g2)
  {
    Round2Monotone(g1 * 0.06, g2 * 0.06);
    Round2Monotone(g1 * 0.02, g2 * 0.02);
    FlatTaxMonotone(g1, g2);
    Round2Monotone(g1 * FlatPayeRate(g1), g2 * FlatPayeRate(g2));
  }

  /** Before rounding, the flat tax grows with a non-negative gross. */
  lemma FlatTaxMonotone(g1: real, g2: real)
    requires 0.0 <= g1 <= g2
    ensures g1 * FlatPayeRate(g1) <= g2 * FlatPayeRate(g2)
  {
    // Each rate is one of three constants, so every case is linear.
    if g1 <= 24000.0 {
      assert g1 * FlatPayeRate(g1) == g1 * 0.10;
    } else if g1 <= 32333.0 {
      assert g1 * FlatPayeRate(g1) == g1 * 0.25;
    } else {
      assert g1 * FlatPayeRate(g1) == g1 * 0.30;
    }
    if g2 <= 24000.0 {
      assert g2 * FlatPayeRate(g2) == g2 * 0.10;
    } else if g2 <= 32333.0 {
      assert g2 * FlatPayeRate(g2) == g2 * 0.25;
    } else {
      assert g2 * FlatPayeRate(g2) == g2 * 0.30;
    }
  }

  /** `calc_paye` jumps at each threshold: one cent more gross moves the whole
      gross to the higher rate. */
  lemma CalcPayeJumps()
    ensures CalcPaye(24000.0) == 2400.0
    ensures CalcPaye(24000.01) == 6000.0
    ensures CalcPaye(32333.0) == 8083.25
    ensures CalcPaye(32333.01) == 9699.9
  {
    IntegerIsWholeCents(2400);
    Round2OfWholeCents(2400.0);
    IntegerIsWholeCents(6000);
    RoundHalfEvenUnique(600000.25, 600000);
    Round2OfWholeCents(8083.25);
    RoundHalfEvenUnique(969990.3, 969990);
  }

  /** Half a cent goes to the even cent: 2% of 0.25 and 10% of 0.05 are both
      0.005 and round to 0.00; 6% of 0.75 is 0.045 and rounds to 0.04. */
  lemma HelpersRoundHalfEven()
    ensures CalcSha(0.25) == 0.0
    ensures CalcPaye(0.05) == 0.0
    ensures CalcNssf(0.75) == 0.04
  {
    Round2Characterised(0.005, 0.0);
    Round2Characterised(0.045, 0.04);
  }

  /** With a negative gross the helpers return non-positive amounts; there is
      no clamp. */
  lemma HelpersNegative(gross: real)
    requires gross < 0.0
    ensures CalcNssf(gross) <= 0.0 && CalcSha(gross) <= 0.0 && CalcPaye(gross) <= 0.0
  {
    Round2OfWholeCents(0.0);
    Round2Monotone(gross * 0.06, 0.0);
    Round2Monotone(gross * 0.02, 0.0);
    Round2Monotone(gross * 0.10, 0.0);
  }
}
