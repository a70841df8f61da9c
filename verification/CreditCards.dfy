/** One credit card's month: an ordered fold over its events (`src/calculation/credit_card.rs`). */
module CreditCards {
  import opened Wrappers
  import opened Cents
  import opened Entities
  import opened Sums

  datatype CardActivity =
    | Purchase(categoryId: CategoryId, amount: Money, funded: Money)
    | Refund(categoryId: CategoryId, amount: Money, fundedReversal: Money)
    | Payment(amount: Money)
    | Credit(amount: Money, category: Option<CategoryId>)

  datatype PriorCardState = PriorCardState(cardBalance: Money, paymentAvailable: Money, refundableFunded: Money)

  datatype SpendingCategory = SpendingCategory(categoryId: CategoryId, available: Money)

  datatype CardInput = CardInput(
    prior: PriorCardState,
    categories: seq<SpendingCategory>,
    paymentAssignment: Money,
    activity: seq<CardActivity>)

  datatype Contributions = Contributions(
    purchases: Money,
    refunds: Money,
    credits: Money,
    fundedSpendingMoved: Money,
    fundedRefundsReversed: Money,
    debtCreated: Money,
    paymentsMade: Money,
    paymentCashUsed: Money,
    manualAssignment: Money,
    readyToAssignChange: Money)

  datatype CardError = NegativeMagnitude | InvalidFundedPortion | UnknownCategory | CardOverflow

  /** The running state of the loop; it is also the result, its maps listing the spending categories. */
  datatype CardResult = CardResult(
    cardBalance: Money,
    paymentAvailable: Money,
    refundableFunded: Money,
    available: map<CategoryId, Money>,
    overspending: map<CategoryId, Money>,
    contributions: Contributions)

  function Add(a: Money, b: Money): Result<Money, CardError> {
    match CheckedAdd(a, b) case Ok(v) => Ok(v) case Err(_) => Err(CardOverflow)
  }

  function Sub(a: Money, b: Money): Result<Money, CardError> {
    match CheckedSub(a, b) case Ok(v) => Ok(v) case Err(_) => Err(CardOverflow)
  }

  function Validate(amount: Money, funded: Money): Result<(), CardError> {
    if amount < 0 || funded < 0 then Err(NegativeMagnitude)
    else if funded > amount then Err(InvalidFundedPortion)
    else Ok(())
  }

  function Overspent(r: CardResult, id: CategoryId): Money {
    if id in r.overspending then r.overspending[id] else 0
  }

  function PurchaseStep(r: CardResult, id: CategoryId, amount: Money, funded: Money): Result<CardResult, CardError> {
    var _ :- Validate(amount, funded);
    if id !in r.available then Err(UnknownCategory)
    else
      var available :- Sub(r.available[id], amount);
      var card :- Sub(r.cardBalance, amount);
      var payment :- Add(r.paymentAvailable, funded);
      var refundable :- Add(r.refundableFunded, funded);
      var purchases :- Add(r.contributions.purchases, amount);
      var moved :- Add(r.contributions.fundedSpendingMoved, funded);
      var debt :- Sub(amount, funded);
      var created :- Add(r.contributions.debtCreated, debt);
      var over :- Add(Overspent(r, id), debt);
      Ok(CardResult(card, payment, refundable, r.available[id := available], r.overspending[id := over],
                    r.contributions.(purchases := purchases, fundedSpendingMoved := moved, debtCreated := created)))
  }

  function RefundStep(r: CardResult, id: CategoryId, amount: Money, fundedReversal: Money)
    : Result<CardResult, CardError>
  {
    var _ :- Validate(amount, fundedReversal);
    var reverse: Money := Min(Min(fundedReversal, r.refundableFunded), Positive(r.paymentAvailable));
    if id !in r.available then Err(UnknownCategory)
    else
      var available :- Add(r.available[id], amount);
      var card :- Add(r.cardBalance, amount);
      var payment :- Sub(r.paymentAvailable, reverse);
      var refundable :- Sub(r.refundableFunded, reverse);
      var refunds :- Add(r.contributions.refunds, amount);
      var reversed :- Add(r.contributions.fundedRefundsReversed, reverse);
      Ok(CardResult(card, payment, refundable, r.available[id := available], r.overspending,
                    r.contributions.(refunds := refunds, fundedRefundsReversed := reversed)))
  }

  function PaymentStep(r: CardResult, amount: Money): Result<CardResult, CardError> {
    var _ :- Validate(amount, 0);
    var card :- Add(r.cardBalance, amount);
    var used: Money := Min(amount, Positive(r.paymentAvailable));
    var payment :- Sub(r.paymentAvailable, used);
    var made :- Add(r.contributions.paymentsMade, amount);
    var cash :- Add(r.contributions.paymentCashUsed, used);
    Ok(r.(cardBalance := card, paymentAvailable := payment,
          contributions := r.contributions.(paymentsMade := made, paymentCashUsed := cash)))
  }

  function CreditStep(r: CardResult, amount: Money, category: Option<CategoryId>): Result<CardResult, CardError> {
    var _ :- Validate(amount, 0);
    var card :- Add(r.cardBalance, amount);
    var credits :- Add(r.contributions.credits, amount);
    match category
    case Some(id) =>
      if id !in r.available then Err(UnknownCategory)
      else
        var available :- Add(r.available[id], amount);
        Ok(r.(cardBalance := card, available := r.available[id := available],
              contributions := r.contributions.(credits := credits)))
    case None =>
      var change :- Add(r.contributions.readyToAssignChange, amount);
      Ok(r.(cardBalance := card,
            contributions := r.contributions.(credits := credits, readyToAssignChange := change)))
  }

  function Step(r: CardResult, event: CardActivity): Result<CardResult, CardError> {
    match event
    case Purchase(id, amount, funded) => PurchaseStep(r, id, amount, funded)
    case Refund(id, amount, fundedReversal) => RefundStep(r, id, amount, fundedReversal)
    case Payment(amount) => PaymentStep(r, amount)
    case Credit(amount, category) => CreditStep(r, amount, category)
  }

  function AvailableMap(categories: seq<SpendingCategory>): map<CategoryId, Money> {
    if categories == [] then map[]
    else
      var last := categories[|categories| - 1];
      AvailableMap(categories[..|categories| - 1])[last.categoryId := last.available]
  }

  function Start(input: CardInput): Result<CardResult, CardError> {
    var payment :- Add(input.prior.paymentAvailable, input.paymentAssignment);
    Ok(CardResult(input.prior.cardBalance, payment, input.prior.refundableFunded,
                  AvailableMap(input.categories), map[],
                  Contributions(0, 0, 0, 0, 0, 0, 0, 0, input.paymentAssignment, 0)))
  }

  function Fold(r: CardResult, events: seq<CardActivity>): Result<CardResult, CardError> {
    if events == [] then Ok(r)
    else
      var before :- Fold(r, events[..|events| - 1]);
      Step(before, events[|events| - 1])
  }

  function CalculateCard(input: CardInput): Result<CardResult, CardError> {
    var start :- Start(input);
    Fold(start, input.activity)
  }

  lemma {:induction false} FailedFold(r: CardResult, events: seq<CardActivity>, at: nat)
    requires at <= |events| && Fold(r, events[..at]).Err?
    ensures Fold(r, events) == Err(Fold(r, events[..at]).error)
    decreases |events|
  {
    if at < |events| {
      assert events[..|events| - 1][..at] == events[..at];
      FailedFold(r, events[..|events| - 1], at);
    } else {
      assert events[..at] == events;
    }
  }

  /** The event loop over local state. */
  method Calculate(input: CardInput) returns (r: Result<CardResult, CardError>)
    ensures r == CalculateCard(input)
  {
    hide Step;
    var payment :- Add(input.prior.paymentAvailable, input.paymentAssignment);
    var card, refundable := input.prior.cardBalance, input.prior.refundableFunded;
    var available := AvailableMap(input.categories);
    var overspending: map<CategoryId, Money> := map[];
    var c := Contributions(0, 0, 0, 0, 0, 0, 0, 0, input.paymentAssignment, 0);
    ghost var start := Start(input).value;
    for i := 0 to |input.activity|
      invariant Fold(start, input.activity[..i])
             == Ok(CardResult(card, payment, refundable, available, overspending, c))
    {
      var event := input.activity[i];
      assert input.activity[..i + 1][..i] == input.activity[..i];
      if Fold(start, input.activity[..i + 1]).Err? {
        FailedFold(start, input.activity, i + 1);
      }
      var state := CardResult(card, payment, refundable, available, overspending, c);
      var next := Step(state, event);
      if next.Err? {
        return Err(next.error);
      }
      card, payment, refundable := next.value.cardBalance, next.value.paymentAvailable, next.value.refundableFunded;
      available, overspending, c := next.value.available, next.value.overspending, next.value.contributions;
    }
    assert input.activity[..|input.activity|] == input.activity;
    return Ok(CardResult(card, payment, refundable, available, overspending, c));
  }

  // ----- Conservation -------------------------------------------------------------------------

  /** Where every amount of the month ended up, relative to the state the month started from. */
  ghost predicate Conserved(start: CardResult, r: CardResult) {
    var c := r.contributions;
    && r.cardBalance == start.cardBalance - c.purchases + c.refunds + c.paymentsMade + c.credits
    && r.paymentAvailable
       == start.paymentAvailable + c.fundedSpendingMoved - c.fundedRefundsReversed - c.paymentCashUsed
    && r.refundableFunded == start.refundableFunded + c.fundedSpendingMoved - c.fundedRefundsReversed
    && r.available.Keys == start.available.Keys
    && Total(r.available)
       == Total(start.available) - c.purchases + c.refunds + c.credits - c.readyToAssignChange
    && c.debtCreated == c.purchases - c.fundedSpendingMoved
    && c.debtCreated == Total(r.overspending)
    && (start.refundableFunded >= 0 ==> r.refundableFunded >= 0)
  }

  lemma OverspendTotal(over: map<CategoryId, Money>, id: CategoryId, v: Money)
    ensures Total(over[id := v]) == Total(over) - (if id in over then over[id] else 0) + v
  {
    if id in over {
      TotalReplace(over, id, v);
    } else {
      TotalInsert(over, id, v);
    }
  }

  lemma PurchaseConserves(start: CardResult, r: CardResult, event: CardActivity)
    requires event.Purchase? && Conserved(start, r) && Step(r, event).Ok?
    ensures Conserved(start, Step(r, event).value)
  {
    var next := Step(r, event).value;
    TotalReplace(r.available, event.categoryId, next.available[event.categoryId]);
    OverspendTotal(r.overspending, event.categoryId, next.overspending[event.categoryId]);
  }

  lemma StepConserves(start: CardResult, r: CardResult, event: CardActivity)
    requires Conserved(start, r) && Step(r, event).Ok?
    ensures Conserved(start, Step(r, event).value)
  {
    match event
    case Purchase(_, _, _) => PurchaseConserves(start, r, event);
    case Refund(id, amount, fundedReversal) =>
      TotalReplace(r.available, id, Step(r, event).value.available[id]);
    case Credit(amount, category) =>
      if category.Some? {
        TotalReplace(r.available, category.value, Step(r, event).value.available[category.value]);
      }
    case Payment(_) =>
  }

  lemma {:induction false} FoldConserves(start: CardResult, events: seq<CardActivity>)
    requires Conserved(start, start) && Fold(start, events).Ok?
    ensures Conserved(start, Fold(start, events).value)
  {
    hide Step, Conserved;
    if events != [] {
      FoldConserves(start, events[..|events| - 1]);
      StepConserves(start, Fold(start, events[..|events| - 1]).value, events[|events| - 1]);
    }
  }

  /**
   For every event list: card balance, payment cash, refundable funding and total category
   availability equal their start plus the signed contribution totals; the debt created is what was
   bought without funding, and it is the sum of the categories' card overspending.
   */
  lemma MonthConserves(input: CardInput)
    requires CalculateCard(input).Ok?
    ensures Conserved(Start(input).value, CalculateCard(input).value)
    ensures Start(input).value.paymentAvailable == input.prior.paymentAvailable + input.paymentAssignment
  {
    hide Fold;
    var start := Start(input).value;
    TotalEmpty<CategoryId>();
    FoldConserves(start, input.activity);
  }

  /** A refund or payment takes no more than the payment cash there is, and never adds any. */
  lemma PaymentCashFloor(r: CardResult, event: CardActivity)
    requires Step(r, event).Ok? && r.refundableFunded >= 0
    ensures event.Refund? || event.Payment? ==>
              Min(0, r.paymentAvailable) <= Step(r, event).value.paymentAvailable <= r.paymentAvailable
    ensures event.Purchase? ==> Step(r, event).value.paymentAvailable == r.paymentAvailable + event.funded
    ensures event.Credit? ==> Step(r, event).value.paymentAvailable == r.paymentAvailable
  {
  }

  lemma RefundableFloor(r: CardResult, event: CardActivity)
    requires Step(r, event).Ok? && r.refundableFunded >= 0
    ensures Step(r, event).value.refundableFunded >= 0
    ensures event.Purchase? ==> event.funded >= 0
  {
  }

  /** From a non-negative start the payment cash never goes below zero, or below where it stood. */
  lemma {:induction false} PaymentCashNeverFalls(start: CardResult, events: seq<CardActivity>)
    requires Fold(start, events).Ok? && start.refundableFunded >= 0
    ensures Fold(start, events).value.paymentAvailable >= Min(0, start.paymentAvailable)
    ensures Fold(start, events).value.refundableFunded >= 0
  {
    hide Step;
    if events != [] {
      var before := Fold(start, events[..|events| - 1]).value;
      PaymentCashNeverFalls(start, events[..|events| - 1]);
      PaymentCashFloor(before, events[|events| - 1]);
      RefundableFloor(before, events[|events| - 1]);
    }
  }

  // ----- Splitting a card's history into months -----------------------------------------------

  /** The three amounts that one month hands to the next, as unbounded integers. */
  datatype Core = Core(card: int, payment: int, refundable: int)

  function CoreOf(r: CardResult): Core {
    Core(r.cardBalance, r.paymentAvailable, r.refundableFunded)
  }

  function PriorCore(p: PriorCardState): Core {
    Core(p.cardBalance, p.paymentAvailable, p.refundableFunded)
  }

  function CoreStep(core: Core, event: CardActivity): Core {
    match event
    case Purchase(_, amount, funded) => Core(core.card - amount, core.payment + funded, core.refundable + funded)
    case Refund(_, amount, fundedReversal) =>
      var reverse := Min(Min(fundedReversal, core.refundable), Max(core.payment, 0));
      Core(core.card + amount, core.payment - reverse, core.refundable - reverse)
    case Payment(amount) => Core(core.card + amount, core.payment - Min(amount, Max(core.payment, 0)), core.refundable)
    case Credit(amount, _) => core.(card := core.card + amount)
  }

  function CoreFold(core: Core, events: seq<CardActivity>): Core {
    if events == [] then core else CoreStep(CoreFold(core, events[..|events| - 1]), events[|events| - 1])
  }

  lemma StepCore(r: CardResult, event: CardActivity)
    requires Step(r, event).Ok?
    ensures CoreOf(Step(r, event).value) == CoreStep(CoreOf(r), event)
  {
  }

  lemma {:induction false} FoldCore(r: CardResult, events: seq<CardActivity>)
    requires Fold(r, events).Ok?
    ensures CoreOf(Fold(r, events).value) == CoreFold(CoreOf(r), events)
  {
    hide Step, CoreStep;
    if events != [] {
      FoldCore(r, events[..|events| - 1]);
      StepCore(Fold(r, events[..|events| - 1]).value, events[|events| - 1]);
    }
  }

  lemma {:induction false} CoreFoldConcat(core: Core, a: seq<CardActivity>, b: seq<CardActivity>)
    ensures CoreFold(core, a + b) == CoreFold(CoreFold(core, a), b)
  {
    if b == [] {
      assert a + b == a;
    } else {
      assert (a + b)[..|a + b| - 1] == a + b[..|b| - 1];
      CoreFoldConcat(core, a, b[..|b| - 1]);
    }
  }

  /** A card month by its core: the assignment to the payment category, then the events. */
  lemma MonthCore(input: CardInput)
    requires CalculateCard(input).Ok?
    ensures var prior := PriorCore(input.prior);
            CoreOf(CalculateCard(input).value)
            == CoreFold(prior.(payment := prior.payment + input.paymentAssignment), input.activity)
  {
    hide Fold, CoreFold;
    FoldCore(Start(input).value, input.activity);
  }

  function Carried(r: CardResult): PriorCardState {
    PriorCardState(r.cardBalance, r.paymentAvailable, r.refundableFunded)
  }

  /** Consecutive months of one card, each starting from what the month before it carried over. */
  function Months(first: CardInput, later: seq<CardInput>): Result<CardResult, CardError> {
    if later == [] then CalculateCard(first)
    else
      var before :- Months(first, later[..|later| - 1]);
      CalculateCard(later[|later| - 1].(prior := Carried(before)))
  }

  function AllActivity(first: CardInput, later: seq<CardInput>): seq<CardActivity> {
    if later == [] then first.activity
    else AllActivity(first, later[..|later| - 1]) + later[|later| - 1].activity
  }

  lemma {:induction false} MonthsCore(first: CardInput, later: seq<CardInput>)
    requires Months(first, later).Ok?
    requires forall i :: 0 <= i < |later| ==> later[i].paymentAssignment == 0
    ensures var prior := PriorCore(first.prior);
            CoreOf(Months(first, later).value)
            == CoreFold(prior.(payment := prior.payment + first.paymentAssignment), AllActivity(first, later))
  {
    hide CalculateCard, CoreFold;
    if later == [] {
      MonthCore(first);
    } else {
      var init, last := later[..|later| - 1], later[|later| - 1];
      MonthsCore(first, init);
      var before := Months(first, init).value;
      MonthCore(last.(prior := Carried(before)));
      var prior := PriorCore(first.prior);
      CoreFoldConcat(prior.(payment := prior.payment + first.paymentAssignment), AllActivity(first, init), last.activity);
    }
  }

  /**
   Cutting one card's event list into any number of consecutive months and chaining their states
   ends with the same card balance, payment cash and refundable funding as one run over the whole
   list, when only the first month assigns to the payment category.
   */
  lemma {:induction false} SplittingMonthsChangesNothing(first: CardInput, later: seq<CardInput>, whole: CardInput)
    requires forall i :: 0 <= i < |later| ==> later[i].paymentAssignment == 0
    requires whole.prior == first.prior && whole.paymentAssignment == first.paymentAssignment
    requires whole.activity == AllActivity(first, later)
    requires Months(first, later).Ok? && CalculateCard(whole).Ok?
    ensures Carried(Months(first, later).value) == Carried(CalculateCard(whole).value)
  {
    hide CalculateCard, CoreFold, Months;
    MonthsCore(first, later);
    MonthCore(whole);
  }
}
