/**
 `Employee.calculate_net_salary`: a pay preview from the employee's monthly
 salary, built from the placeholder helpers (flat pension, flat health, one
 PAYE rate on the whole gross) and a fixed zero "other" deduction. Unlike
 `Payroll.save` it does not round the net pay.
 */
module Employees {
  import opened Money
  import opened Utils

  /** The dictionary `calculate_net_salary` returns. */
  datatype NetSalary = NetSalary(gross: real, nssf: real, sha: real, paye: real, other: real, net: real)

  function CalculateNetSalary(salary: real): (b: NetSalary)
    ensures b.gross == salary && b.other == 0.0
    ensures b.net + b.nssf + b.sha + b.paye + b.other == b.gross
    ensures WholeCents(b.nssf) && WholeCents(b.sha) && WholeCents(b.paye)
  {
    var gross := salary;
    var nssf := CalcNssf(gross);
    var sha := CalcSha(gross);
    var paye := CalcPaye(gross);
    var other := 0.0;
    var net := gross - nssf - sha - paye - other;
    NetSalary(gross, nssf, sha, paye, other, net)
  }

  /** The preview uses the placeholder helpers, each on the whole salary. */
  lemma NetSalaryUsesHelpers(salary: real)
    ensures var b := CalculateNetSalary(salary);
      b.nssf == CalcNssf(salary) && b.sha == CalcSha(salary) && b.paye == CalcPaye(salary)
  {
  }

  /** For a non-negative salary the net pay lies between zero and the salary:
      the three flat deductions together take at most 38% of it, plus at most
      three half-cents of rounding. */
  lemma NetSalaryBounds(salary: real)
    requires salary >= 0.0
    ensures 0.0 <= CalculateNetSalary(salary).net <= salary
  {
    var rate := FlatPayeRate(salary);
    HelpersNonNegative(salary);
    Round2AtMostDouble(salary * 0.06);
    Round2AtMostDouble(salary * 0.02);
    Round2AtMostDouble(salary * rate);
    if salary <= 24000.0 {
      assert salary * rate == salary * 0.10;
    } else if salary <= 32333.0 {
      assert salary * rate == salary * 0.25;
    } else {
      assert salary * rate == salary * 0.30;
    }
  }

  /** A salary in whole cents gives a net pay in whole cents, even though the
      net pay itself is never rounded. */
  lemma NetSalaryWholeCents(salary: real)
    requires WholeCents(salary)
    ensures WholeCents(CalculateNetSalary(salary).net)
  {
    var b := CalculateNetSalary(salary);
    WholeCentsClosed(salary, b.nssf);
    WholeCentsClosed(salary - b.nssf, b.sha);
    WholeCentsClosed(salary - b.nssf - b.sha, b.paye);
    assert b.net == salary - b.nssf - b.sha - b.paye;
  }

  /** A salary of 35000 through the placeholder helpers. */
  lemma NetSalaryExample()
    ensures var b := CalculateNetSalary(35000.0);
      b.nssf == 2100.0 && b.sha == 700.0 && b.paye == 10500.0 && b.net == 21700.0
  {
    IntegerIsWholeCents(2100);
    Round2OfWholeCents(2100.0);
    IntegerIsWholeCents(700);
    Round2OfWholeCents(700.0);
    IntegerIsWholeCents(10500);
    Round2OfWholeCents(10500.0);
  }
}
