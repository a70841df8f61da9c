/** Category targets and the monthly amount they advise (`src/domain/target.rs`). */
module Targets {
  import opened Wrappers
  import opened Cents
  import opened Calendar

  datatype TargetRecurrence = Once | EveryMonth | EveryYear

  datatype TargetKind =
    | BalanceAmount(amount: Money)
    | BalanceByDate(amount: Money, due: Date)
    | FixedMonthlySavings(amount: Money)
    | RefillToAmount(amount: Money)
    | UpcomingExpense(amount: Money, due: Date, recurrence: TargetRecurrence)
    | CreditCardPayoffByDate(due: Date)

  datatype CardState = CardState(cardDebt: Money, paymentAvailable: Money)

  datatype TargetError = MissingCreditCardState | TargetOverflow

  datatype Recommendation = Recommendation(
    target: Money,
    funded: Money,
    remaining: Money,
    monthly: Money,
    due: Option<Date>,
    isFunded: bool)

  function MonthsInclusive(from: Date, due: Date): (n: int)
    ensures n >= 1
  {
    if NotAfter(due, from) then 1 else Max(MonthIndex(due) - MonthIndex(from) + 1, 1)
  }

  lemma QuotientPart(a: nat, n: int)
    requires n >= 1
    ensures 0 <= a / n && a / n * n <= a
  {
  }

  lemma ProductAtLeast(q: nat, n: int)
    requires n >= 1
    ensures q <= q * n
  {
    assert q * n == q * (n - 1) + q;
    assert q * (n - 1) >= 0;
  }

  lemma QuotientAtMost(a: nat, n: int)
    requires n >= 1
    ensures 0 <= a / n <= a
  {
    var q := a / n;
    QuotientPart(a, n);
    ProductAtLeast(q, n);
  }

  /** Division rounding up, with the checked addition before it. */
  function DivideCeil(value: Money, divisor: int): Result<Money, TargetError>
    requires divisor >= 1 && value >= 0
  {
    var adjusted := value + (divisor - 1);
    if adjusted > MAX_CENTS then Err(TargetOverflow)
    else
      QuotientAtMost(adjusted, divisor);
      Ok(adjusted / divisor)
  }

  /** The amount to reach, its date and the fixed monthly amount, by kind of target. */
  function Goal(kind: TargetKind, card: Option<CardState>): Result<(Money, Option<Date>, Option<Money>), TargetError> {
    match kind
    case BalanceAmount(amount) => Ok((amount, None, None))
    case RefillToAmount(amount) => Ok((amount, None, None))
    case BalanceByDate(amount, due) => Ok((amount, Some(due), None))
    case UpcomingExpense(amount, due, _) => Ok((amount, Some(due), None))
    case FixedMonthlySavings(amount) => Ok((amount, None, Some(amount)))
    case CreditCardPayoffByDate(due) =>
      if card.None? then Err(MissingCreditCardState)
      else if Magnitude(card.value.cardDebt) > MAX_CENTS then Err(TargetOverflow)
      else Ok((Magnitude(card.value.cardDebt), Some(due), None))
  }

  function Recommend(kind: TargetKind, today: Date, available: Money, card: Option<CardState>)
    : Result<Recommendation, TargetError>
  {
    var goal :- Goal(kind, card);
    var (target, due, fixedMonthly) := goal;
    var funded := Positive(if kind.CreditCardPayoffByDate? && card.Some? then card.value.paymentAvailable else available);
    match CheckedSub(target, funded)
    case Err(_) => Err(TargetOverflow)
    case Ok(difference) =>
      var remaining := Positive(difference);
      var monthly :-
        if remaining == 0 then Ok(0)
        else if fixedMonthly.Some? then Ok(Min(fixedMonthly.value, remaining))
        else if due.Some? then DivideCeil(remaining, MonthsInclusive(today, due.value))
        else Ok(remaining);
      Ok(Recommendation(target, funded, remaining, monthly, due, remaining == 0))
  }

  lemma CeilBounds(value: nat, n: int)
    requires n >= 1
    ensures value <= n * ((value + (n - 1)) / n) < value + n
  {
    var a := value + (n - 1);
    assert a == n * (a / n) + a % n;
  }

  /**
   For every kind of target: what remains is the gap, and the advice closes it over the months left.
   A dated instalment is the least amount that does so; a fixed one stops at the gap.
   */
  lemma {:induction false} AdviceIsLeastInstalment(kind: TargetKind, today: Date, available: Money, card: Option<CardState>)
    requires Recommend(kind, today, available, card).Ok?
    ensures var advice := Recommend(kind, today, available, card).value;
            && advice.funded >= 0 && advice.remaining >= 0
            && (advice.isFunded <==> advice.funded >= advice.target)
            && (!advice.isFunded ==> advice.funded + advice.remaining == advice.target)
            && (advice.isFunded ==> advice.remaining == advice.monthly == 0)
            && (advice.due.Some? ==>
                  var months := MonthsInclusive(today, advice.due.value);
                  advice.remaining <= months * advice.monthly < advice.remaining + months)
            && (advice.due.None? && !kind.FixedMonthlySavings? ==> advice.monthly == advice.remaining)
            && (kind.FixedMonthlySavings? && kind.amount >= 0 ==>
                  0 <= advice.monthly <= kind.amount && advice.monthly <= advice.remaining
                  && (advice.monthly == kind.amount || advice.monthly == advice.remaining))
  {
    var advice := Recommend(kind, today, available, card).value;
    if advice.due.Some? {
      var months := MonthsInclusive(today, advice.due.value);
      if advice.remaining == 0 {
        assert months * 0 == 0;
      } else {
        CeilBounds(advice.remaining, months);
      }
    }
  }

  /**
   What a recommendation is about: the target's own amount, or the size of the card's debt; what is
   available for it, or on the card's payment envelope, counted from zero; and the target's date.
   Only a card payoff without a card is refused for that.
   */
  lemma {:induction false} AdviceFacts(kind: TargetKind, today: Date, available: Money, card: Option<CardState>)
    ensures var r, payoff := Recommend(kind, today, available, card), kind.CreditCardPayoffByDate?;
            && (r == Err(MissingCreditCardState) <==> payoff && card.None?)
            && (r.Ok? ==>
                  && (payoff ==> card.Some? && r.value.target == Magnitude(card.value.cardDebt)
                                 && r.value.funded == Max(0, card.value.paymentAvailable) && r.value.due == Some(kind.due))
                  && (!payoff ==> r.value.target == kind.amount && r.value.funded == Max(0, available))
                  && (kind.BalanceByDate? || kind.UpcomingExpense? ==> r.value.due == Some(kind.due))
                  && (kind.BalanceAmount? || kind.RefillToAmount? || kind.FixedMonthlySavings? ==> r.value.due == None))
  {
    hide MonthsInclusive;
  }

  // ----- Following the advice -----------------------------------------------------------------

  predicate Dated(kind: TargetKind) {
    kind.BalanceByDate? || kind.UpcomingExpense? || kind.CreditCardPayoffByDate?
  }

  /** What is to be reached: the amount of the target, or the size of the card's debt. */
  function Amount(kind: TargetKind, debt: Money): nat
    requires Dated(kind) && (!kind.CreditCardPayoffByDate? ==> kind.amount >= 0)
  {
    if kind.CreditCardPayoffByDate? then Magnitude(debt) else kind.amount
  }

  /** The advice with so much saved, in the category or, for a payoff, in the card's payment envelope. */
  function Advice(kind: TargetKind, debt: Money, today: Date, saved: Money): Result<Recommendation, TargetError> {
    Recommend(kind, today, saved, Some(CardState(debt, saved)))
  }

  /** One date in each calendar month, from the first date to the month the target is due. */
  ghost predicate MonthlyDates(dates: seq<Date>, due: Date) {
    && |dates| >= 1
    && |dates| == MonthsInclusive(dates[0], due)
    && forall i :: 0 <= i < |dates| ==> MonthIndex(dates[i]) == MonthIndex(dates[0]) + i
  }

  lemma MonthsLeft(dates: seq<Date>, due: Date, i: nat)
    requires MonthlyDates(dates, due) && i < |dates|
    ensures MonthsInclusive(dates[i], due) == |dates| - i
  {
    if i > 0 {
      assert MonthIndex(dates[i]) == MonthIndex(dates[0]) + i;
      if MonthIndex(dates[i]) < MonthIndex(due) {
        LaterMonthIsLater(dates[i], due);
      }
    }
  }

  /** The money saved before payment `i` when every earlier month paid what was advised. */
  function Saved(kind: TargetKind, debt: Money, dates: seq<Date>, start: Money, i: nat): Result<Money, TargetError>
    requires i <= |dates|
  {
    if i == 0 then Ok(start)
    else
      var before :- Saved(kind, debt, dates, start, i - 1);
      var advice :- Advice(kind, debt, dates[i - 1], before);
      match CheckedAdd(before, advice.monthly) case Err(_) => Err(TargetOverflow) case Ok(total) => Ok(total)
  }

  lemma ProductSign(d: int, n: int)
    requires n > 0
    ensures d >= 1 ==> d * n >= n
    ensures d <= -1 ==> d * n <= 0 - n
  {
  }

  lemma {:induction false} Division(a: int, n: int, q: int, r: int)
    requires n > 0 && 0 <= r < n && a == q * n + r
    ensures a / n == q && a % n == r
  {
    var d := a / n - q;
    assert a == a / n * n + a % n;
    assert d * n == r - a % n by {
      assert d * n == a / n * n - q * n;
    }
    ProductSign(d, n);
  }

  lemma {:induction false} CeilShare(q: nat, e: nat, k: nat)
    requires e < k
    ensures (k * q + e + (k - 1)) / k == q + if e > 0 then 1 else 0
  {
    if e > 0 {
      Division(k * q + e + (k - 1), k, q + 1, e - 1) by {
        assert (q + 1) * k == k * q + k;
      }
    } else {
      Division(k * q + (k - 1), k, q, k - 1);
    }
  }

  /** The closed form of what has been saved after `i` of `n` payments towards `amount`. */
  function Schedule(start: Money, amount: Money, n: nat, i: nat): int
    requires n > 0
  {
    var rest := amount - start;
    start + i * (rest / n) + Min(i, rest % n)
  }

  /** The payment of month `i`: the quotient, and one cent more while the remainder lasts. */
  function MonthShare(start: Money, amount: int, n: nat, i: nat): int
    requires n > 0
  {
    var rest := amount - start;
    rest / n + if i < rest % n then 1 else 0
  }

  lemma Products(q: nat, n: nat, i: nat)
    requires i <= n
    ensures (n - i) * q == q * n - i * q && 0 <= i * q <= q * n
  {
    assert (n - i) * q == n * q - i * q;
    assert (n - i) * q >= 0;
  }

  lemma {:induction false} StepDivision(rest: nat, n: nat, i: nat)
    requires i < n
    ensures var left := rest - i * (rest / n) - Min(i, rest % n);
            && 0 <= left <= rest
            && (left + (n - i - 1)) / (n - i) == rest / n + (if i < rest % n then 1 else 0)
  {
    var q, r := rest / n, rest % n;
    Products(q, n, i);
    assert rest == q * n + r;
    if i < r {
      CeilShare(q, r - i, n - i);
    } else {
      CeilShare(q, 0, n - i);
    }
  }

  /** A target that can be reached: dated, to an amount that is one. */
  predicate Reachable(kind: TargetKind, debt: Money) {
    Dated(kind) && if kind.CreditCardPayoffByDate? then Magnitude(debt) <= MAX_CENTS else kind.amount >= 0
  }

  /** The advice towards a dated goal is the rest divided by the months left, rounded up. */
  lemma DatedAdvice(kind: TargetKind, debt: Money, today: Date, saved: Money)
    requires Reachable(kind, debt) && 0 <= saved <= Amount(kind, debt)
    requires Amount(kind, debt) - saved + MonthsInclusive(today, kind.due) - 1 <= MAX_CENTS
    ensures var k := MonthsInclusive(today, kind.due);
            var advice := Advice(kind, debt, today, saved);
            advice.Ok? && advice.value.monthly == (Amount(kind, debt) - saved + (k - 1)) / k
  {
    var k := MonthsInclusive(today, kind.due);
    Division(k - 1, k, 0, k - 1);
  }

  lemma {:induction false} ScheduleBounds(start: Money, amount: Money, n: nat, i: nat)
    requires i < n && start <= amount
    ensures var now := Schedule(start, amount, n, i);
            && start <= now <= amount
            && (amount - now + (n - i - 1)) / (n - i) == MonthShare(start, amount, n, i)
  {
    StepDivision(amount - start, n, i);
  }

  lemma ScheduleStart(start: Money, amount: Money, n: nat)
    requires n > 0 && start <= amount
    ensures Schedule(start, amount, n, 0) == start
  {
    assert 0 * ((amount - start) / n) == 0;
  }

  lemma ScheduleEnd(start: Money, amount: Money, n: nat)
    requires n > 0 && start <= amount
    ensures Schedule(start, amount, n, n) == amount
  {
    var rest := amount - start;
    assert n * (rest / n) + rest % n == rest;
  }

  lemma Advance(start: Money, amount: Money, n: nat, i: nat)
    requires n > 0 && start <= amount
    ensures Schedule(start, amount, n, i + 1)
         == Schedule(start, amount, n, i) + MonthShare(start, amount, n, i)
  {
    var q := (amount - start) / n;
    assert (i + 1) * q == i * q + q;
  }

  lemma NothingPaid(kind: TargetKind, debt: Money, dates: seq<Date>, start: Money)
    ensures Saved(kind, debt, dates, start, 0) == Ok(start)
  {
  }

  lemma SavedStep(kind: TargetKind, debt: Money, dates: seq<Date>, start: Money, i: nat, before: int, paid: int)
    requires 0 < i <= |dates| && InRange(before + paid) && InRange(before)
    requires Saved(kind, debt, dates, start, i - 1) == Ok(before)
    requires Advice(kind, debt, dates[i - 1], before).Ok? && Advice(kind, debt, dates[i - 1], before).value.monthly == paid
    ensures Saved(kind, debt, dates, start, i) == Ok(before + paid)
  {
    hide Advice;
  }

  /** Each month's advice is the quotient, plus one cent while the remainder lasts. */
  lemma {:induction false} AdviceInMonth(kind: TargetKind, debt: Money, dates: seq<Date>, start: Money, i: nat)
    requires Reachable(kind, debt) && MonthlyDates(dates, kind.due) && i < |dates|
    requires 0 <= start <= Amount(kind, debt) && Amount(kind, debt) - start + |dates| - 1 <= MAX_CENTS
    ensures var n, amount := |dates|, Amount(kind, debt);
            && Saved(kind, debt, dates, start, i) == Ok(Schedule(start, amount, n, i))
            && var advice := Advice(kind, debt, dates[i], Saved(kind, debt, dates, start, i).value);
               advice.Ok? && advice.value.monthly == MonthShare(start, amount, n, i)
  {
    hide Advice, Schedule, MonthsInclusive, MonthShare, MonthlyDates, Saved;
    var n, amount := |dates|, Amount(kind, debt);
    MonthsLeft(dates, kind.due, i);
    ScheduleBounds(start, amount, n, i);
    if i == 0 {
      ScheduleStart(start, amount, n);
      NothingPaid(kind, debt, dates, start);
    } else {
      AdviceInMonth(kind, debt, dates, start, i - 1);
      Advance(start, amount, n, i - 1);
      SavedStep(kind, debt, dates, start, i, Schedule(start, amount, n, i - 1), MonthShare(start, amount, n, i - 1));
    }
    DatedAdvice(kind, debt, dates[i], Schedule(start, amount, n, i));
  }

  /** What the advice is in month `i` of following it. */
  function Payment(kind: TargetKind, debt: Money, dates: seq<Date>, start: Money, i: nat): int
    requires i < |dates|
  {
    var saved := Saved(kind, debt, dates, start, i);
    if saved.Err? then 0
    else
      var advice := Advice(kind, debt, dates[i], saved.value);
      if advice.Err? then 0 else advice.value.monthly
  }

  lemma {:induction false} PaymentIsShare(kind: TargetKind, debt: Money, dates: seq<Date>, start: Money, i: nat)
    requires Reachable(kind, debt) && MonthlyDates(dates, kind.due) && i < |dates|
    requires 0 <= start <= Amount(kind, debt) && Amount(kind, debt) - start + |dates| - 1 <= MAX_CENTS
    ensures Payment(kind, debt, dates, start, i) == MonthShare(start, Amount(kind, debt), |dates|, i)
    ensures var saved := Saved(kind, debt, dates, start, i); saved.Ok? && 0 <= saved.value <= Amount(kind, debt)
  {
    hide Advice, Schedule, MonthsInclusive, MonthShare, Saved;
    AdviceInMonth(kind, debt, dates, start, i);
    ScheduleBounds(start, Amount(kind, debt), |dates|, i);
  }

  lemma SharesFall(start: Money, amount: int, n: nat, i: nat, j: nat)
    requires n > 0 && i <= j
    ensures 0 <= MonthShare(start, amount, n, i) - MonthShare(start, amount, n, j) <= 1
  {
  }

  lemma {:induction false} LastSaving(kind: TargetKind, debt: Money, dates: seq<Date>, start: Money)
    requires Reachable(kind, debt) && MonthlyDates(dates, kind.due) && 0 <= start <= Amount(kind, debt)
    requires Amount(kind, debt) - start + |dates| - 1 <= MAX_CENTS
    ensures Saved(kind, debt, dates, start, |dates|) == Ok(Amount(kind, debt))
  {
    hide Advice, Schedule, MonthsInclusive, MonthShare;
    var n, amount := |dates|, Amount(kind, debt);
    hide Saved, MonthlyDates;
    AdviceInMonth(kind, debt, dates, start, n - 1);
    Advance(start, amount, n, n - 1);
    ScheduleEnd(start, amount, n);
    SavedStep(kind, debt, dates, start, n, Schedule(start, amount, n, n - 1), MonthShare(start, amount, n, n - 1));
  }

  /**
   Paying the advised amount once in each remaining calendar month, from non-negative savings up to
   the target, whichever kind of dated target it is: the advice never fails, the savings reach the
   target exactly with the payment of the due month and never pass it, the payments never increase,
   and they differ by at most one cent. The only way to fail is the checked addition of the
   rounding, which the first month shows.
   */
  lemma {:induction false} AdviceReachesTarget(kind: TargetKind, debt: Money, dates: seq<Date>, start: Money)
    requires Reachable(kind, debt) && MonthlyDates(dates, kind.due) && 0 <= start <= Amount(kind, debt)
    requires Amount(kind, debt) - start + |dates| - 1 <= MAX_CENTS
    ensures Saved(kind, debt, dates, start, |dates|) == Ok(Amount(kind, debt))
    ensures forall i :: 0 <= i <= |dates| ==>
              Saved(kind, debt, dates, start, i).Ok? && 0 <= Saved(kind, debt, dates, start, i).value <= Amount(kind, debt)
    ensures forall i, j :: 0 <= i <= j < |dates| ==>
              0 <= Payment(kind, debt, dates, start, i) - Payment(kind, debt, dates, start, j) <= 1
  {
    hide Payment, Saved, MonthShare, MonthsInclusive, MonthlyDates;
    var n, amount := |dates|, Amount(kind, debt);
    LastSaving(kind, debt, dates, start);
    forall i | 0 <= i < n
      ensures Saved(kind, debt, dates, start, i).Ok? && 0 <= Saved(kind, debt, dates, start, i).value <= amount
    {
      PaymentIsShare(kind, debt, dates, start, i);
    }
    forall i, j | 0 <= i <= j < n
      ensures 0 <= Payment(kind, debt, dates, start, i) - Payment(kind, debt, dates, start, j) <= 1
    {
      PaymentIsShare(kind, debt, dates, start, i);
      PaymentIsShare(kind, debt, dates, start, j);
      SharesFall(start, amount, n, i, j);
    }
  }

  /** The first month's advice fails exactly when the rounding, or the debt without its sign, leaves the range. */
  lemma AdviceOverflow(kind: TargetKind, debt: Money, dates: seq<Date>, start: Money)
    requires Dated(kind) && MonthlyDates(dates, kind.due)
    requires !kind.CreditCardPayoffByDate? ==> kind.amount >= 0
    requires 0 <= start < Amount(kind, debt)
    ensures Advice(kind, debt, dates[0], start).Err?
       <==> !Reachable(kind, debt) || Amount(kind, debt) - start + |dates| - 1 > MAX_CENTS
  {
  }

  /**
   Savings that are negative are advised as if they were zero, so the last payment closes the gap
   exactly when the savings before it are no longer negative, and leaves their debt otherwise.
   */
  lemma LastPayment(kind: TargetKind, debt: Money, today: Date, saved: Money)
    requires Reachable(kind, debt) && MonthsInclusive(today, kind.due) == 1 && saved <= Amount(kind, debt)
    ensures var advice, amount := Advice(kind, debt, today, saved), Amount(kind, debt);
            && advice.Ok?
            && saved + advice.value.monthly == amount + Min(saved, 0)
            && (saved + advice.value.monthly == amount <==> saved >= 0)
  {
  }
}
