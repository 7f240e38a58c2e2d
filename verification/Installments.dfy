/** Instalment rows and the schedule a contract is given. */
module Installments {
  import opened Common
  import opened Calendar

  datatype InstallmentStatus = Pending | Due | Overdue | Defaulted | Paid | Voided

  /** A row of the table; `id` is its position there. */
  datatype Installment = Installment(
    id: nat, contract: nat, sequence: int, amount: Money, status: InstallmentStatus, dueDate: int)

  /** A row before the database gives it an id. */
  datatype NewInstallment = NewInstallment(
    contract: nat, amount: Money, dueDate: int, sequence: int, status: InstallmentStatus)

  datatype ScheduleError = MonthsNotPositive | AmountNotPositive

  /** Math.round: halves go up. */
  function Round(x: real): int {
    (x + 0.5).Floor
  }

  function Cents(totalAmount: Money): int {
    Round(totalAmount * 100.0)
  }

  function Amount(cents: int): Money {
    cents as real / 100.0
  }

  /** Equal shares, the remainder going to the last one. */
  function Shares(base: int, remainder: int, months: nat): seq<Money> {
    seq(months, i requires 0 <= i < months => Amount(if i == months - 1 then base + remainder else base))
  }

  function DueDates(firstPaymentDate: int, months: nat): seq<int> {
    seq(months, i requires 0 <= i < months => SameDateClamped(firstPaymentDate, i))
  }

  function Rows(contract: nat, amounts: seq<Money>, dueDates: seq<int>): seq<NewInstallment>
    requires |amounts| == |dueDates|
  {
    seq(|amounts|, i requires 0 <= i < |amounts| =>
      NewInstallment(contract, amounts[i], dueDates[i], i + 1, Pending))
  }

  function Schedule(contract: nat, totalInCents: int, months: nat, firstPaymentDate: int): seq<NewInstallment>
    requires months > 0
  {
    Rows(contract, Shares(totalInCents / months, totalInCents % months, months), DueDates(firstPaymentDate, months))
  }

  method GenerateInstallmentSchedule(contract: nat, totalAmount: Money, months: int, firstPaymentDate: int)
      returns (r: Result<seq<NewInstallment>, ScheduleError>)
    ensures months <= 0 ==> r == Err(MonthsNotPositive)
    ensures months > 0 && totalAmount <= 0.0 ==> r == Err(AmountNotPositive)
    ensures months > 0 && totalAmount > 0.0 ==>
              r == Ok(Schedule(contract, Cents(totalAmount), months, firstPaymentDate))
    ensures r.Ok? ==>
              var cents := (totalAmount * 100.0 + 0.5).Floor;
              && months > 0 && |r.value| == months
              && forall i :: 0 <= i < months ==>
                   && r.value[i].contract == contract && r.value[i].sequence == i + 1 && r.value[i].status == Pending
                   && (i < months - 1 ==> r.value[i].amount == (cents / months) as real / 100.0)
                   && (i == months - 1 ==>
                         r.value[i].amount == (cents - (months - 1) * (cents / months)) as real / 100.0)
                   && MonthOf(r.value[i].dueDate) == MonthOf(firstPaymentDate) + i
  {
    if months <= 0 {
      return Err(MonthsNotPositive);
    }
    if totalAmount <= 0.0 {
      return Err(AmountNotPositive);
    }
    var totalInCents := Cents(totalAmount);
    var baseAmountInCents := totalInCents / months;
    var remainder := totalInCents % months;
    var schedules: seq<NewInstallment> := [];
    ghost var expected := Schedule(contract, totalInCents, months, firstPaymentDate);
    for i := 0 to months
      invariant schedules == expected[..i]
    {
      var dueDate := AddMonthsClamped(firstPaymentDate, i);
      var installmentAmountInCents := if i == months - 1 then baseAmountInCents + remainder else baseAmountInCents;
      var row := NewInstallment(contract, Amount(installmentAmountInCents), dueDate, i + 1, Pending);
      assert row == expected[i];
      schedules := schedules + [row];
    }
    assert schedules == expected;
    ScheduleInCents(contract, totalInCents, months, firstPaymentDate);
    r := Ok(schedules);
  }

  // ---- What the schedule comes to ----

  function Amounts(rows: seq<NewInstallment>): seq<Money> {
    seq(|rows|, i requires 0 <= i < |rows| => rows[i].amount)
  }

  lemma {:induction false} SumOfEqualShares(xs: seq<Money>, share: Money)
    requires forall i :: 0 <= i < |xs| ==> xs[i] == share
    ensures Sum(xs) == |xs| as real * share
  {
    if xs != [] {
      var n := |xs| - 1;
      SumOfEqualShares(xs[..n], share);
      assert |xs| as real * share == n as real * share + share;
    }
  }

  lemma SharesAddUp(total: int, months: nat)
    requires months > 0
    ensures (months - 1) as real * Amount(total / months) + Amount(total / months + total % months) == Amount(total)
  {
    var base, remainder := total / months, total % months;
    assert total == base * months + remainder;
    assert (base * months) as real == base as real * months as real;
    assert total as real == base as real * months as real + remainder as real;
    assert (base + remainder) as real == base as real + remainder as real;
    assert (months - 1) as real * base as real == base as real * months as real - base as real;
  }

  lemma SharesSum(base: int, remainder: int, months: nat)
    requires months > 0
    ensures Sum(Shares(base, remainder, months)) == (months - 1) as real * Amount(base) + Amount(base + remainder)
  {
    SumOfEqualShares(Shares(base, remainder, months)[..months - 1], Amount(base));
  }

  lemma AmountsOfRows(contract: nat, amounts: seq<Money>, dueDates: seq<int>)
    requires |amounts| == |dueDates|
    ensures Amounts(Rows(contract, amounts, dueDates)) == amounts
  {
  }

  lemma AmountsOfSchedule(contract: nat, totalInCents: int, months: nat, firstPaymentDate: int)
    requires months > 0
    ensures Amounts(Schedule(contract, totalInCents, months, firstPaymentDate))
         == Shares(totalInCents / months, totalInCents % months, months)
  {
    AmountsOfRows(contract, Shares(totalInCents / months, totalInCents % months, months),
                  DueDates(firstPaymentDate, months));
  }

  lemma SharesOfTotal(totalInCents: int, months: nat)
    requires months > 0
    ensures Sum(Shares(totalInCents / months, totalInCents % months, months)) == Amount(totalInCents)
  {
    SharesAddUp(totalInCents, months);
    SharesSum(totalInCents / months, totalInCents % months, months);
  }

  /** No cent is lost or invented: the amounts come to the total rounded to cents. */
  lemma ScheduleSums(contract: nat, totalInCents: int, months: nat, firstPaymentDate: int)
    requires months > 0
    ensures Sum(Amounts(Schedule(contract, totalInCents, months, firstPaymentDate))) == Amount(totalInCents)
  {
    AmountsOfSchedule(contract, totalInCents, months, firstPaymentDate);
    SharesOfTotal(totalInCents, months);
  }

  /** Rounding moves the total by at most half a cent. */
  lemma RoundedToCents(totalAmount: Money)
    ensures -0.005 < Amount(Cents(totalAmount)) - totalAmount <= 0.005
  {
  }

  /**
   Every amount is a whole number of cents: before the last the total divided by the number of instalments and
   rounded down, and the last is the rest of the total.
   */
  lemma ScheduleInCents(contract: nat, totalInCents: int, months: nat, firstPaymentDate: int)
    requires months > 0
    ensures var rows := Schedule(contract, totalInCents, months, firstPaymentDate);
            && |rows| == months
            && forall i :: 0 <= i < months ==>
                 && rows[i].contract == contract && rows[i].sequence == i + 1 && rows[i].status == Pending
                 && (i < months - 1 ==> rows[i].amount == (totalInCents / months) as real / 100.0)
                 && (i == months - 1 ==>
                       rows[i].amount == (totalInCents - (months - 1) * (totalInCents / months)) as real / 100.0)
                 && MonthOf(rows[i].dueDate) == MonthOf(firstPaymentDate) + i
  {
    var base, remainder := totalInCents / months, totalInCents % months;
    LastIsTheRest(totalInCents, months);
    var rows := Schedule(contract, totalInCents, months, firstPaymentDate);
    forall i | 0 <= i < months
      ensures rows[i].contract == contract && rows[i].sequence == i + 1 && rows[i].status == Pending
      ensures i < months - 1 ==> rows[i].amount == base as real / 100.0
      ensures i == months - 1 ==> rows[i].amount == (base + remainder) as real / 100.0
      ensures MonthOf(rows[i].dueDate) == MonthOf(firstPaymentDate) + i
    {
      RowOfShares(contract, base, remainder, months, firstPaymentDate, i);
      ClampedDate(firstPaymentDate, i);
    }
  }

  lemma RowOfShares(contract: nat, base: int, remainder: int, months: nat, firstPaymentDate: int, i: nat)
    requires i < months
    ensures var row := Rows(contract, Shares(base, remainder, months), DueDates(firstPaymentDate, months))[i];
            && row.contract == contract && row.sequence == i + 1 && row.status == Pending
            && (i < months - 1 ==> row.amount == base as real / 100.0)
            && (i == months - 1 ==> row.amount == (base + remainder) as real / 100.0)
            && row.dueDate == SameDateClamped(firstPaymentDate, i)
  {
    var amounts := Shares(base, remainder, months);
    assert amounts[i] == if i < months - 1 then Amount(base) else Amount(base + remainder);
    assert Rows(contract, amounts, DueDates(firstPaymentDate, months))[i].amount == amounts[i];
  }

  lemma LastIsTheRest(total: int, months: nat)
    requires months > 0
    ensures total / months + total % months == total - (months - 1) * (total / months)
  {
    var base := total / months;
    assert total == base * months + total % months;
    assert (months - 1) * base == base * months - base;
  }

  lemma SharesShape(base: int, remainder: int, months: nat)
    requires 0 <= remainder < months
    ensures var amounts := Shares(base, remainder, months);
            && (forall i :: 0 <= i < months - 1 ==> amounts[i] == amounts[0])
            && (months > 1 ==> 0.0 <= amounts[months - 1] - amounts[0] < months as real / 100.0)
  {
    var amounts := Shares(base, remainder, months);
    assert amounts[months - 1] == Amount(base + remainder);
    assert (base + remainder) as real == base as real + remainder as real;
    assert remainder as real < months as real;
    if months > 1 {
      assert amounts[0] == Amount(base);
    }
  }

  /**
   What a schedule promises: sequences 1..n; every amount but the last the same; the last at
   least that and larger by less than n cents; the sum within half a cent of the total.
   */
  lemma ScheduleAmounts(contract: nat, totalAmount: Money, months: nat, firstPaymentDate: int)
    requires months > 0
    ensures var rows := Schedule(contract, Cents(totalAmount), months, firstPaymentDate);
            var amounts := Amounts(rows);
            && |rows| == months
            && (forall i :: 0 <= i < months ==>
                  rows[i].sequence == i + 1 && rows[i].contract == contract && rows[i].status == Pending)
            && (forall i :: 0 <= i < months - 1 ==> amounts[i] == amounts[0])
            && (months > 1 ==> 0.0 <= amounts[months - 1] - amounts[0] < months as real / 100.0)
            && -0.005 < Sum(amounts) - totalAmount <= 0.005
  {
    var total := Cents(totalAmount);
    AmountsOfSchedule(contract, total, months, firstPaymentDate);
    SharesShape(total / months, total % months, months);
    ScheduleSums(contract, total, months, firstPaymentDate);
    RoundedToCents(totalAmount);
  }

  /**
   Due dates never drift: date i lies exactly i calendar months after the first, on the first
   one's date or the last date of the month, and successive dates are 28 to 31 days apart.
   */
  lemma ScheduleDates(contract: nat, totalInCents: int, months: nat, firstPaymentDate: int, i: nat)
    requires i < months
    ensures var rows := Schedule(contract, totalInCents, months, firstPaymentDate);
            && MonthOf(rows[i].dueDate) == MonthOf(firstPaymentDate) + i
            && DateOf(rows[i].dueDate)
               == (if DateOf(firstPaymentDate) <= MonthLength(MonthOf(firstPaymentDate) + i)
                   then DateOf(firstPaymentDate) else MonthLength(MonthOf(firstPaymentDate) + i))
            && rows[0].dueDate == firstPaymentDate
            && (i + 1 < months ==> 28 <= rows[i + 1].dueDate - rows[i].dueDate <= 31)
  {
    ClampedDate(firstPaymentDate, i);
    ConsecutiveDates(firstPaymentDate, i);
  }
}
