/**
 The statutory deduction rules of the `Payroll` record and the arithmetic of
 its `save` hook: the two-tier pension (NSSF) contribution, the flat-amount
 health (NHIF / SHA) bracket lookup and the marginal income tax (PAYE).
 */
module PayrollRules {
  import opened Money

  // ---------------------------------------------------------------------------
  // Income tax (PAYE)
  // ---------------------------------------------------------------------------

  /** One tax band: the next `width` of taxable income is taxed at `rate`. */
  datatype TaxBand = TaxBand(width: real, rate: real)

  /** The bands of `Payroll.calculate_paye`, consumed in this order. The last
      band is wide but finite. */
  const PayeBands: seq<TaxBand> :=
    [TaxBand(24000.0, 0.10), TaxBand(8333.0, 0.25), TaxBand(999999999.0, 0.30)]

  /** Taxable income above this amount falls outside every band. */
  const PayeBandsEnd: real := 24000.0 + 8333.0 + 999999999.0

  /** The unrounded tax the band loop accumulates: each band taxes
      `min(remaining, width)` at its rate, and the loop stops as soon as
      nothing remains. */
  function BandTax(bands: seq<TaxBand>, remaining: real): real {
    if |bands| == 0 || remaining <= 0.0 then 0.0
    else
      var slice := Min(remaining, bands[0].width);
      slice * bands[0].rate + BandTax(bands[1..], remaining - slice)
  }

  /** `Payroll.calculate_paye`: marginal tax on taxable income, rounded to cents. */
  function CalculatePaye(taxable: real): real {
    Round2(BandTax(PayeBands, taxable))
  }

  /** The marginal tax in closed form, band by band. */
  lemma PayeClosedForm(t: real)
    ensures t <= 0.0 ==> CalculatePaye(t) == 0.0
    ensures 0.0 < t <= 24000.0 ==> CalculatePaye(t) == Round2(0.10 * t)
    ensures 24000.0 < t <= 32333.0 ==> CalculatePaye(t) == Round2(2400.0 + 0.25 * (t - 24000.0))
    ensures 32333.0 < t <= PayeBandsEnd ==> CalculatePaye(t) == Round2(4483.25 + 0.30 * (t - 32333.0))
    ensures t > PayeBandsEnd ==> CalculatePaye(t) == Round2(4483.25 + 0.30 * 999999999.0)
  {
    PayeBandTaxClosedForm(t);
    Round2OfWholeCents(0.0);
  }

  /** The three PAYE bands written out as one piecewise-linear amount. */
  lemma PayeBandTaxClosedForm(t: real)
    ensures t <= 0.0 ==> BandTax(PayeBands, t) == 0.0
    ensures 0.0 < t <= 24000.0 ==> BandTax(PayeBands, t) == 0.10 * t
    ensures 24000.0 < t <= 32333.0 ==> BandTax(PayeBands, t) == 2400.0 + 0.25 * (t - 24000.0)
    ensures 32333.0 < t <= PayeBandsEnd ==> BandTax(PayeBands, t) == 4483.25 + 0.30 * (t - 32333.0)
    ensures t > PayeBandsEnd ==> BandTax(PayeBands, t) == 4483.25 + 0.30 * 999999999.0
  {
    var b1 := PayeBands[1..];
    var b2 := PayeBands[2..];
    assert b1 == [TaxBand(8333.0, 0.25), TaxBand(999999999.0, 0.30)];
    assert b2 == [TaxBand(999999999.0, 0.30)];
    assert b1[1..] == b2;
    assert b2[1..] == [];
    if t > 0.0 {
      if t <= 24000.0 {
        assert BandTax(b1, 0.0) == 0.0;
      } else {
        var r1 := t - 24000.0;
        if r1 <= 8333.0 {
          assert BandTax(b2, 0.0) == 0.0;
          assert BandTax(b1, r1) == 0.25 * r1;
        } else {
          var r2 := r1 - 8333.0;
          assert BandTax(b2[1..], r2 - Min(r2, 999999999.0)) == 0.0;
          assert BandTax(b2, r2) == Min(r2, 999999999.0) * 0.30;
          assert BandTax(b1, r1) == 8333.0 * 0.25 + BandTax(b2, r2);
        }
      }
    }
  }

  /** `Payroll.calculate_paye` as the source writes it: a loop over the bands
      that breaks once nothing remains, then one rounding. */
  method CalculatePayeLoop(taxableIncome: real) returns (tax: real)
    ensures tax == CalculatePaye(taxableIncome)
  {
    var acc := 0.0;
    var remaining := taxableIncome;
    var i := 0;
    while i < |PayeBands|
      invariant 0 <= i <= |PayeBands|
      invariant acc + BandTax(PayeBands[i..], remaining) == BandTax(PayeBands, taxableIncome)
    {
      if remaining <= 0.0 {
        break;
      }
      var slice := Min(remaining, PayeBands[i].width);
      acc := acc + slice * PayeBands[i].rate;
      remaining := remaining - slice;
      i := i + 1;
    }
    tax := Round2(acc);
  }

  lemma PayeExamples()
    ensures CalculatePaye(-100.0) == 0.0
    ensures CalculatePaye(0.0) == 0.0
    ensures CalculatePaye(24000.0) == 2400.0
    ensures CalculatePaye(32333.0) == 4483.25
  {
    PayeClosedForm(-100.0);
    PayeClosedForm(0.0);
    PayeClosedForm(24000.0);
    PayeClosedForm(32333.0);
    IntegerIsWholeCents(2400);
    Round2OfWholeCents(2400.0);
    assert 2400.0 + 0.25 * (32333.0 - 24000.0) == 4483.25;
    Round2OfWholeCents(4483.25);
  }

  /** Half a cent of tax rounds to the even cent: 10% of 0.25 is 0.025, which
      becomes 0.02 (rounding half up would give 0.03). */
  lemma PayeRoundsHalfEven()
    ensures CalculatePaye(0.25) == 0.02
  {
    PayeClosedForm(0.25);
    Round2TiesToEven();
  }

  /** PAYE never falls when taxable income rises. */
  lemma PayeMonotone(s: real, t: real)
    requires s <= t
    ensures CalculatePaye(s) <= CalculatePaye(t)
  {
    PayeBandTaxClosedForm(s);
    PayeBandTaxClosedForm(t);
    Round2Monotone(BandTax(PayeBands, s), BandTax(PayeBands, t));
  }

  /** PAYE is never negative, whatever the taxable income. */
  lemma PayeNonNegative(t: real)
    ensures CalculatePaye(t) >= 0.0
  {
    PayeBandTaxClosedForm(t);
    Round2Monotone(0.0, BandTax(PayeBands, t));
    Round2OfWholeCents(0.0);
  }

  /** Within the bands the tax lies between the lowest and the highest rate
      applied to the whole income, up to half a cent of rounding. */
  lemma PayeBounds(t: real)
    requires 0.0 <= t <= PayeBandsEnd
    ensures 0.0 <= CalculatePaye(t)
    ensures 0.10 * t - 0.005 <= CalculatePaye(t) <= 0.30 * t + 0.005
  {
    PayeBandTaxClosedForm(t);
    Round2Monotone(0.0, BandTax(PayeBands, t));
    Round2OfWholeCents(0.0);
  }

  /** Above the last band the tax stops growing: income beyond `PayeBandsEnd`
      is not taxed at all. */
  lemma PayeFlatAboveBands(t: real)
    requires t >= PayeBandsEnd
    ensures CalculatePaye(t) == CalculatePaye(PayeBandsEnd)
  {
    PayeClosedForm(t);
    PayeClosedForm(PayeBandsEnd);
  }

  // ---------------------------------------------------------------------------
  // Health insurance (NHIF / SHA)
  // ---------------------------------------------------------------------------

  /** One health bracket: gross up to `limit` pays the flat `amount`. */
  datatype Bracket = Bracket(limit: real, amount: int)

  /** The brackets of `Payroll.calculate_nhif`, scanned in this order. */
  const NhifBrackets: seq<Bracket> := [
    Bracket(5999.0, 150), Bracket(7999.0, 300), Bracket(11999.0, 400),
    Bracket(14999.0, 500), Bracket(19999.0, 600), Bracket(24999.0, 750),
    Bracket(29999.0, 850), Bracket(34999.0, 900), Bracket(39999.0, 950),
    Bracket(44999.0, 1000), Bracket(49999.0, 1100), Bracket(59999.0, 1200),
    Bracket(69999.0, 1300), Bracket(79999.0, 1400), Bracket(89999.0, 1500),
    Bracket(99999.0, 1600), Bracket(999999999.0, 1700)
  ]

  /** The limit of the last health bracket; a larger gross matches none. */
  const NhifSentinel: real := 999999999.0

  /** Limits strictly ascending and amounts non-decreasing, neighbour by neighbour. */
  predicate Ascending(brackets: seq<Bracket>) {
    forall i :: 0 < i < |brackets| ==>
      brackets[i - 1].limit < brackets[i].limit && brackets[i - 1].amount <= brackets[i].amount
  }

  /** Bracket `i` is the first one whose limit is at least `gross`. */
  predicate FirstCovering(brackets: seq<Bracket>, gross: real, i: int) {
    && 0 <= i < |brackets|
    && gross <= brackets[i].limit
    && forall j :: 0 <= j < i ==> gross > brackets[j].limit
  }

  /** The scan of `calculate_nhif` from bracket `i` on. */
  function LookupFrom(brackets: seq<Bracket>, gross: real, i: nat): real
    requires i <= |brackets|
    decreases |brackets| - i
  {
    if i == |brackets| then 0.0
    else if gross <= brackets[i].limit then brackets[i].amount as real
    else LookupFrom(brackets, gross, i + 1)
  }

  /** The bracket scan of `calculate_nhif`. */
  function BracketLookup(brackets: seq<Bracket>, gross: real): real {
    LookupFrom(brackets, gross, 0)
  }

  /** The scan from `i` yields the amount of the first bracket at or after `i`
      whose limit is at least `gross`, or 0.00 when there is none. */
  lemma {:induction false} LookupFromFirstCovering(brackets: seq<Bracket>, gross: real, i: nat)
    requires i <= |brackets|
    requires forall j :: 0 <= j < i ==> gross > brackets[j].limit
    ensures forall k :: FirstCovering(brackets, gross, k) ==> LookupFrom(brackets, gross, i) == brackets[k].amount as real
    ensures (forall j :: 0 <= j < |brackets| ==> gross > brackets[j].limit) ==> LookupFrom(brackets, gross, i) == 0.0
    decreases |brackets| - i
  {
    if i < |brackets| && gross > brackets[i].limit {
      LookupFromFirstCovering(brackets, gross, i + 1);
    }
  }

  /** The lookup yields the amount of the first bracket covering `gross`, or
      0.00 when no bracket covers it. */
  lemma BracketLookupFirstCovering(brackets: seq<Bracket>, gross: real)
    ensures forall i :: FirstCovering(brackets, gross, i) ==> BracketLookup(brackets, gross) == brackets[i].amount as real
    ensures (forall j :: 0 <= j < |brackets| ==> gross > brackets[j].limit) ==> BracketLookup(brackets, gross) == 0.0
  {
    LookupFromFirstCovering(brackets, gross, 0);
  }

  /** `Payroll.calculate_nhif`. */
  function CalculateNhif(gross: real): real {
    BracketLookup(NhifBrackets, gross)
  }

  /** `Payroll.calculate_sha` delegates to the NHIF lookup unchanged: the flat
      amount of the first bracket covering gross, and 0.00 above the last one. */
  function CalculateSha(gross: real): (r: real)
    ensures gross > NhifSentinel ==> r == 0.0
    ensures forall i :: FirstCovering(NhifBrackets, gross, i) ==> r == NhifBrackets[i].amount as real
  {
    NhifFirstCovering(gross);
    CalculateNhif(gross)
  }

  /** The health amount is the flat amount of the first bracket whose limit is
      at least gross, and 0.00 above the sentinel. */
  lemma NhifFirstCovering(gross: real)
    ensures gross > NhifSentinel ==> CalculateNhif(gross) == 0.0
    ensures forall i :: FirstCovering(NhifBrackets, gross, i) ==> CalculateNhif(gross) == NhifBrackets[i].amount as real
  {
    BracketLookupFirstCovering(NhifBrackets, gross);
    if gross > NhifSentinel {
      NhifBracketsAscending();
      LimitsBelowLast(NhifBrackets);
    }
  }

  lemma NhifBracketsAscending()
    ensures Ascending(NhifBrackets)
  {
    var b := NhifBrackets;
    forall i | 0 < i < |b|
      ensures b[i - 1].limit < b[i].limit && b[i - 1].amount <= b[i].amount
    {
      assert i in {1, 2, 3, 4, 5, 6, 7, 8, 9, 10, 11, 12, 13, 14, 15, 16};
    }
  }

  /** In an ascending table every limit is at most the last one. */
  lemma LimitsBelowLast(brackets: seq<Bracket>)
    requires |brackets| > 0 && Ascending(brackets)
    ensures forall j :: 0 <= j < |brackets| ==> brackets[j].limit <= brackets[|brackets| - 1].limit
  {
    forall j | 0 <= j < |brackets|
      ensures brackets[j].limit <= brackets[|brackets| - 1].limit
    {
      LimitAscends(brackets, j, |brackets| - 1);
    }
  }

  /** Limits and amounts of an ascending table grow along any distance. */
  lemma {:induction false} LimitAscends(brackets: seq<Bracket>, j: nat, k: nat)
    requires j <= k < |brackets| && Ascending(brackets)
    ensures brackets[j].limit <= brackets[k].limit
    ensures brackets[j].amount <= brackets[k].amount
    decreases k - j
  {
    if j < k {
      LimitAscends(brackets, j, k - 1);
    }
  }

  /** In an ascending table, the scan from `i` of anything up to the last limit
      yields at least bracket `i`'s amount. */
  lemma {:induction false} LookupAtLeast(brackets: seq<Bracket>, gross: real, i: nat)
    requires i < |brackets| && Ascending(brackets)
    requires gross <= brackets[|brackets| - 1].limit
    ensures LookupFrom(brackets, gross, i) >= brackets[i].amount as real
    decreases |brackets| - i
  {
    if gross > brackets[i].limit {
      LookupAtLeast(brackets, gross, i + 1);
    }
  }

  /** In an ascending table the scan is a non-decreasing step function up to
      the last limit. */
  lemma {:induction false} LookupMonotone(brackets: seq<Bracket>, g1: real, g2: real, i: nat)
    requires i < |brackets| && Ascending(brackets)
    requires g1 <= g2 <= brackets[|brackets| - 1].limit
    ensures LookupFrom(brackets, g1, i) <= LookupFrom(brackets, g2, i)
    decreases |brackets| - i
  {
    if g1 <= brackets[i].limit {
      LookupAtLeast(brackets, g2, i);
    } else {
      LookupMonotone(brackets, g1, g2, i + 1);
    }
  }

  /** In any table, the scan from `i` of a gross no larger than the last limit
      yields one of the table's amounts. */
  lemma {:induction false} LookupInTable(brackets: seq<Bracket>, gross: real, i: nat)
    requires i < |brackets| && gross <= brackets[|brackets| - 1].limit
    ensures exists k :: i <= k < |brackets| && LookupFrom(brackets, gross, i) == brackets[k].amount as real
    decreases |brackets| - i
  {
    if gross > brackets[i].limit {
      LookupInTable(brackets, gross, i + 1);
    }
  }

  /** The NHIF amount is non-decreasing in gross up to the sentinel limit. */
  lemma NhifMonotone(g1: real, g2: real)
    requires g1 <= g2 <= NhifSentinel
    ensures CalculateNhif(g1) <= CalculateNhif(g2)
  {
    NhifBracketsAscending();
    LookupMonotone(NhifBrackets, g1, g2, 0);
  }

  /** Up to the sentinel the NHIF amount is one of the table's seventeen amounts. */
  lemma NhifInTable(gross: real)
    requires gross <= NhifSentinel
    ensures exists i :: 0 <= i < |NhifBrackets| && CalculateNhif(gross) == NhifBrackets[i].amount as real
  {
    LookupInTable(NhifBrackets, gross, 0);
  }

  /** The 0.00 fallback is reached exactly when gross exceeds the sentinel. */
  lemma NhifZeroIff(gross: real)
    ensures CalculateNhif(gross) == 0.0 <==> gross > NhifSentinel
  {
    NhifFirstCovering(gross);
    if gross <= NhifSentinel {
      var low := Min(gross, 0.0);
      assert FirstCovering(NhifBrackets, low, 0);
      NhifFirstCovering(low);
      NhifMonotone(low, gross);
    }
  }

  /** In an ascending table, the bracket just above the previous limit is the
      first covering one. */
  lemma FirstCoveringAfter(brackets: seq<Bracket>, gross: real, k: nat)
    requires Ascending(brackets) && 0 < k < |brackets|
    requires brackets[k - 1].limit < gross <= brackets[k].limit
    ensures FirstCovering(brackets, gross, k)
  {
    forall j | 0 <= j < k
      ensures gross > brackets[j].limit
    {
      LimitAscends(brackets, j, k - 1);
    }
  }

  lemma NhifExamples()
    ensures CalculateNhif(5999.0) == 150.0
    ensures CalculateNhif(6000.0) == 300.0
    ensures CalculateNhif(35000.0) == 950.0
    ensures CalculateNhif(100000.0) == 1700.0
    ensures CalculateNhif(NhifSentinel) == 1700.0
  {
    NhifBracketsAscending();
    FirstCoveringAfter(NhifBrackets, 35000.0, 8);
    NhifFirstCovering(35000.0);
    FirstCoveringAfter(NhifBrackets, 100000.0, 16);
    NhifFirstCovering(100000.0);
    FirstCoveringAfter(NhifBrackets, NhifSentinel, 16);
    NhifFirstCovering(NhifSentinel);
  }

  // ---------------------------------------------------------------------------
  // Pension (NSSF)
  // ---------------------------------------------------------------------------

  /** `Payroll.calculate_nssf`: 6% of the first 7000 plus 6% of the next 29000,
      rounded to cents. Tier 1 is not clamped, so a negative gross gives a
      non-positive contribution. */
  function CalculateNssf(gross: real): real {
    Round2(NssfTiers(gross))
  }

  /** The two tiers before rounding. */
  function NssfTiers(gross: real): real {
    var tier1 := Min(gross, 7000.0) * 0.06;
    var tier2 := Max(0.0, if gross > 7000.0 then Min(gross - 7000.0, 29000.0) * 0.06 else 0.0);
    tier1 + tier2
  }

  /** For a non-negative gross the tiers are 6% of the first 7000 plus 6% of
      the excess over 7000 capped at 29000; for a negative gross only tier 1
      remains, unclamped. */
  lemma NssfClosedForm(gross: real)
    ensures gross >= 0.0 ==>
      CalculateNssf(gross) == Round2(0.06 * Min(gross, 7000.0) + 0.06 * Min(Max(gross - 7000.0, 0.0), 29000.0))
    ensures gross < 0.0 ==> CalculateNssf(gross) == Round2(0.06 * gross)
  {
  }

  /** The contribution is non-decreasing in gross. */
  lemma NssfMonotone(g1: real, g2: real)
    requires g1 <= g2
    ensures CalculateNssf(g1) <= CalculateNssf(g2)
  {
    Round2Monotone(NssfTiers(g1), NssfTiers(g2));
  }

  /** For a non-negative gross the contribution lies in [0, 2160.00] and is
      capped at 2160.00 from gross 36000 on. */
  lemma NssfBounds(gross: real)
    requires gross >= 0.0
    ensures 0.0 <= CalculateNssf(gross) <= 2160.0
    ensures gross >= 36000.0 ==> CalculateNssf(gross) == 2160.0
  {
    NssfMonotone(0.0, gross);
    NssfMonotone(gross, Max(gross, 36000.0));
    Round2OfWholeCents(0.0);
    IntegerIsWholeCents(2160);
    Round2OfWholeCents(2160.0);
  }

  /** No clamp to zero: a negative gross gives a contribution at most zero, and
      strictly negative once 6% of it reaches a cent. */
  lemma NssfNegative(gross: real)
    requires gross < 0.0
    ensures CalculateNssf(gross) <= 0.0
    ensures gross <= -0.1 ==> CalculateNssf(gross) < 0.0
  {
    Round2Monotone(0.06 * gross, 0.0);
    Round2OfWholeCents(0.0);
  }

  /** Half a cent of pension rounds to the even cent: 6% of 0.75 is 0.045,
      which becomes 0.04 (rounding half up would give 0.05). */
  lemma NssfRoundsHalfEven()
    ensures CalculateNssf(0.75) == 0.04
  {
    RoundHalfEvenUnique(4.5, 4);
  }

  lemma NssfExamples()
    ensures CalculateNssf(7000.0) == 420.0
    ensures CalculateNssf(35000.0) == 2100.0
    ensures CalculateNssf(36000.0) == 2160.0
    ensures CalculateNssf(50000.0) == 2160.0
  {
    IntegerIsWholeCents(420);
    Round2OfWholeCents(420.0);
    IntegerIsWholeCents(2100);
    Round2OfWholeCents(2100.0);
    NssfBounds(36000.0);
    NssfBounds(50000.0);
  }

  // ---------------------------------------------------------------------------
  // The `save` hook
  // ---------------------------------------------------------------------------

  /** The monetary fields of a payroll record. */
  datatype Payroll = Payroll(
    basicSalary: real,
    allowances: real,
    grossSalary: real,
    nssf: real,
    paye: real,
    sha: real,
    netPay: real)

  /** Every deduction is in whole cents and the net pay is gross less all three. */
  predicate Balanced(p: Payroll) {
    && WholeCents(p.nssf) && WholeCents(p.paye) && WholeCents(p.sha) && WholeCents(p.netPay)
    && p.netPay + p.paye + p.nssf + p.sha == p.grossSalary
  }

  /** The field assignments of `Payroll.save` before the record is persisted. */
  function Save(basicSalary: real, allowances: real): (p: Payroll)
    ensures p.basicSalary == basicSalary && p.allowances == allowances
    ensures p.grossSalary == basicSalary + allowances
    ensures WholeCents(p.nssf) && WholeCents(p.paye) && WholeCents(p.netPay)
  {
    var gross := basicSalary + allowances;
    var nssf := CalculateNssf(gross);
    var taxable := gross - nssf;
    var paye := CalculatePaye(taxable);
    var sha := CalculateSha(gross);
    var net := Round2(gross - (paye + nssf + sha));
    Payroll(basicSalary, allowances, gross, nssf, paye, sha, net)
  }

  /** The order of operations of `save`: pension from gross, tax on gross less
      pension, health from gross (not from taxable income), net pay rounded. */
  lemma SaveSteps(basicSalary: real, allowances: real)
    ensures var p := Save(basicSalary, allowances);
      && p.nssf == CalculateNssf(p.grossSalary)
      && p.paye == CalculatePaye(p.grossSalary - p.nssf)
      && p.sha == CalculateSha(p.grossSalary)
      && p.netPay == Round2(p.grossSalary - (p.paye + p.nssf + p.sha))
  {
  }

  /** Every health amount, including the 0.00 fallback, is in whole cents. */
  lemma NhifWholeCents(gross: real)
    ensures WholeCents(CalculateNhif(gross))
    ensures WholeCents(CalculateSha(gross))
  {
    if gross > NhifSentinel {
      NhifFirstCovering(gross);
      Round2OfWholeCents(0.0);
    } else {
      NhifInTable(gross);
      var i :| 0 <= i < |NhifBrackets| && CalculateNhif(gross) == NhifBrackets[i].amount as real;
      IntegerIsWholeCents(NhifBrackets[i].amount);
    }
  }

  /** Rounding `gross - deductions` to cents loses nothing exactly when gross
      is in whole cents, given whole-cent deductions. */
  lemma NetRoundingExactIff(gross: real, deductions: real)
    requires WholeCents(deductions)
    ensures Round2(gross - deductions) + deductions == gross <==> WholeCents(gross)
  {
    var net := Round2(gross - deductions);
    if WholeCents(gross) {
      WholeCentsClosed(gross, deductions);
      Round2OfWholeCents(gross - deductions);
    }
    if net + deductions == gross {
      WholeCentsClosed(net, deductions);
    }
  }

  /** A record whose deductions are in whole cents and whose net pay is the
      rounded remainder balances exactly when its gross is in whole cents. */
  lemma BalancedIff(p: Payroll)
    requires WholeCents(p.nssf) && WholeCents(p.paye) && WholeCents(p.sha)
    requires p.netPay == Round2(p.grossSalary - (p.paye + p.nssf + p.sha))
    ensures Balanced(p) <==> WholeCents(p.grossSalary)
  {
    WholeCentsClosed(p.paye, p.nssf);
    WholeCentsClosed(p.paye + p.nssf, p.sha);
    NetRoundingExactIff(p.grossSalary, p.paye + p.nssf + p.sha);
  }

  /** A saved record balances (net pay plus the three deductions equals gross,
      to the cent) exactly when gross is a whole number of cents. */
  lemma SaveBalancedIff(basicSalary: real, allowances: real)
    ensures Balanced(Save(basicSalary, allowances)) <==> WholeCents(basicSalary + allowances)
  {
    var p := Save(basicSalary, allowances);
    SaveSteps(basicSalary, allowances);
    NhifWholeCents(p.grossSalary);
    BalancedIff(p);
  }

  /** A record saved from whole-cent inputs balances exactly. */
  lemma SaveBalanced(basicSalary: real, allowances: real)
    requires WholeCents(basicSalary) && WholeCents(allowances)
    ensures Balanced(Save(basicSalary, allowances))
  {
    WholeCentsClosed(basicSalary, allowances);
    SaveBalancedIff(basicSalary, allowances);
  }

  /** Saving again from the stored inputs reproduces every stored field: the
      record is a function of its basic salary and allowances alone. */
  lemma SaveIdempotent(basicSalary: real, allowances: real)
    ensures var p := Save(basicSalary, allowances);
            Save(p.basicSalary, p.allowances) == p
  {
  }

  /** The worked example 30000 + 5000. */
  lemma SaveExample()
    ensures var p := Save(30000.0, 5000.0);
      && p.grossSalary == 35000.0
      && p.nssf == 2100.0
      && p.paye == 4653.35
      && p.sha == 950.0
      && p.netPay == 27296.65
  {
    NssfExamples();
    NhifExamples();
    PayeClosedForm(32900.0);
    assert 4483.25 + 0.30 * (32900.0 - 32333.0) == 4653.35;
    Round2OfWholeCents(4653.35);
    Round2OfWholeCents(27296.65);
  }

  /** The flat health amount outweighs a small salary: a gross of 0 to 149
      pays 150 for health and ends with a negative net pay (the record is
      not rejected). */
  lemma SaveSmallGrossNegativeNet(basicSalary: real, allowances: real)
    requires 0.0 <= basicSalary + allowances <= 149.0
    ensures Save(basicSalary, allowances).sha == 150.0
    ensures Save(basicSalary, allowances).netPay < 0.0
  {
    var p := Save(basicSalary, allowances);
    var gross := p.grossSalary;
    SaveSteps(basicSalary, allowances);
    assert FirstCovering(NhifBrackets, gross, 0);
    NhifFirstCovering(gross);
    NssfBounds(gross);
    PayeNonNegative(gross - p.nssf);
    Round2Monotone(gross - (p.paye + p.nssf + p.sha), -1.0);
    IntegerIsWholeCents(-1);
    Round2OfWholeCents(-1.0);
  }

  /** Health comes from gross, not from taxable income: at gross 6000 the
      taxable 5640 would fall in a lower bracket. */
  lemma SaveHealthFromGross()
    ensures Save(6000.0, 0.0).sha == 300.0
    ensures CalculateSha(6000.0 - CalculateNssf(6000.0)) == 150.0
  {
    var p := Save(6000.0, 0.0);
    SaveSteps(6000.0, 0.0);
    IntegerIsWholeCents(360);
    Round2OfWholeCents(360.0);
    assert CalculateNssf(6000.0) == 360.0;
    assert FirstCovering(NhifBrackets, 6000.0, 1);
    NhifFirstCovering(6000.0);
    assert FirstCovering(NhifBrackets, 5640.0, 0);
    NhifFirstCovering(5640.0);
  }
}
