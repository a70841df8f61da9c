/** One budget month (`src/calculation/budget_month.rs`, lines 8-251). */
module BudgetMonths {
  import opened Wrappers
  import opened Cents
  import opened Entities
  import CreditCards

  /** A calendar month counted without breaks. */
  type Month = int

  datatype CategoryInput = CategoryInput(
    id: CategoryId,
    given: Money,
    activity: Money,
    target: Option<Money>,
    creditCardActivity: Money)

  datatype PriorCategory = PriorCategory(id: CategoryId, available: Money)

  datatype CardAccount = CardAccount(
    accountId: AccountId,
    paymentCategoryId: CategoryId,
    calculation: CreditCards.CardInput)

  /** `assignments` is the month's net assignment movement, `futureAssignments` what later months took. */
  datatype MonthInput = MonthInput(
    month: Month,
    categories: seq<CategoryInput>,
    priorCategories: seq<PriorCategory>,
    onBudgetResources: Money,
    priorReadyToAssign: Money,
    uncategorizedInflows: Money,
    assignments: Money,
    positiveRollover: Money,
    priorCashOverspending: Money,
    futureAssignments: Money,
    creditCards: seq<CardAccount>)

  datatype Overspending = NotOverspent | CashOverspent(amount: Money) | CardOverspent(amount: Money)

  datatype FundingStatus = NoTarget | Funded | Underfunded(missing: Money)

  datatype CategoryResult = CategoryResult(
    id: CategoryId,
    given: Money,
    activity: Money,
    available: Money,
    funding: FundingStatus,
    overspending: Overspending)

  datatype CardAccountResult = CardAccountResult(
    accountId: AccountId,
    paymentCategoryId: CategoryId,
    calculation: CreditCards.CardResult)

  datatype MonthResult = MonthResult(
    month: Month,
    categories: seq<CategoryResult>,
    readyToAssign: Money,
    debtCreated: Money,
    creditCards: seq<CardAccountResult>)

  /** Every failure of the calculation is reported as overflow. */
  datatype CalculationError = CalculationOverflow

  lemma OnlyOverflow(e: CalculationError)
    ensures e == CalculationOverflow
  {
    match e
    case CalculationOverflow =>
  }

  function Add(a: Money, b: Money): Result<Money, CalculationError> {
    if CheckedAdd(a, b).Ok? then Ok(CheckedAdd(a, b).value) else Err(CalculationOverflow)
  }

  function Sub(a: Money, b: Money): Result<Money, CalculationError> {
    if CheckedSub(a, b).Ok? then Ok(CheckedSub(a, b).value) else Err(CalculationOverflow)
  }

  /** How far an amount lies below zero. */
  function Shortfall(a: Money): Result<Money, CalculationError> {
    if a >= 0 then Ok(0) else Sub(0, a)
  }

  /** The positive availability that the first prior row of a category carries over. */
  function CarriedOver(prior: seq<PriorCategory>, id: CategoryId): Money {
    if prior == [] then 0
    else if prior[0].id == id then Positive(prior[0].available)
    else CarriedOver(prior[1..], id)
  }

  function FundingOf(c: CategoryInput): FundingStatus {
    match c.target
    case None => NoTarget
    case Some(target) =>
      if c.given >= target then Funded
      else Underfunded(if CheckedSub(target, c.given).Ok? then CheckedSub(target, c.given).value else 0)
  }

  /** The part of a shortfall that the month's card spending explains. */
  function CardShortfall(c: CategoryInput, shortfall: Money): Result<Money, CalculationError> {
    if shortfall > 0 && c.creditCardActivity < 0 then
      var spend :- Shortfall(c.creditCardActivity);
      Ok(if spend < shortfall then spend else shortfall)
    else Ok(0)
  }

  function CategoryRow(prior: seq<PriorCategory>, c: CategoryInput): Result<CategoryResult, CalculationError> {
    var carried :- Add(CarriedOver(prior, c.id), c.given);
    var available :- Add(carried, c.activity);
    var shortfall :- Shortfall(available);
    var card :- CardShortfall(c, shortfall);
    Ok(CategoryResult(c.id, c.given, c.activity, available, FundingOf(c),
                      if card > 0 then CardOverspent(card)
                      else if shortfall > 0 then CashOverspent(shortfall)
                      else NotOverspent))
  }

  function DebtOf(row: CategoryResult): Money {
    if row.overspending.CardOverspent? then row.overspending.amount else 0
  }

  /** The rows of all categories with the card debt inferred from the month's aggregates. */
  function Rows(prior: seq<PriorCategory>, categories: seq<CategoryInput>)
    : Result<(seq<CategoryResult>, Money), CalculationError>
  {
    if categories == [] then Ok(([], 0))
    else
      var before :- Rows(prior, categories[..|categories| - 1]);
      var row :- CategoryRow(prior, categories[|categories| - 1]);
      var debt :- Add(before.1, DebtOf(row));
      Ok((before.0 + [row], debt))
  }

  /** Ready to Assign before any card event: the resources less what was assigned and overspent. */
  function OpeningReady(input: MonthInput): Result<Money, CalculationError> {
    var held :- Add(input.onBudgetResources, input.priorReadyToAssign);
    var resources :- Add(held, input.uncategorizedInflows);
    var afterAssigned :- Sub(resources, input.assignments);
    var afterOverspending :- Sub(afterAssigned, input.priorCashOverspending);
    Sub(afterOverspending, input.futureAssignments)
  }

  // ----- Card accounts ------------------------------------------------------------------------

  /** The first row of a category, which is the one that a search by id finds. */
  predicate FirstRow(rows: seq<CategoryResult>, i: nat) {
    i < |rows| && forall j :: 0 <= j < i ==> rows[j].id != rows[i].id
  }

  function OverspentOn(card: CreditCards.CardResult, id: CategoryId): Money {
    if id in card.overspending then card.overspending[id] else 0
  }

  /** A category that the card overspent is classified by the card's own count. */
  function Reclassified(rows: seq<CategoryResult>, card: CreditCards.CardResult, ids: set<CategoryId>)
    : (r: seq<CategoryResult>)
    ensures |r| == |rows|
  {
    seq(|rows|, i requires 0 <= i < |rows| =>
      if FirstRow(rows, i) && rows[i].id in ids && OverspentOn(card, rows[i].id) > 0 then
        rows[i].(overspending := CardOverspent(OverspentOn(card, rows[i].id)))
      else rows[i])
  }

  function PaymentActivity(card: CreditCards.CardResult): Result<Money, CalculationError> {
    var net :- Sub(card.contributions.fundedSpendingMoved, card.contributions.fundedRefundsReversed);
    Sub(net, card.contributions.paymentCashUsed)
  }

  function FindRowFrom(rows: seq<CategoryResult>, id: CategoryId, from: nat): (r: Option<nat>)
    requires from <= |rows|
    requires forall i :: 0 <= i < from ==> rows[i].id != id
    ensures r.None? <==> forall i :: 0 <= i < |rows| ==> rows[i].id != id
    ensures r.Some? ==> FirstRow(rows, r.value) && rows[r.value].id == id
    decreases |rows| - from
  {
    if from == |rows| then None else if rows[from].id == id then Some(from) else FindRowFrom(rows, id, from + 1)
  }

  function FindRow(rows: seq<CategoryResult>, id: CategoryId): (r: Option<nat>)
    ensures r.None? <==> forall i :: 0 <= i < |rows| ==> rows[i].id != id
    ensures r.Some? ==> FirstRow(rows, r.value) && rows[r.value].id == id
  {
    FindRowFrom(rows, id, 0)
  }

  /** The payment envelope takes its movement and balance from the card engine. */
  function WithPayment(rows: seq<CategoryResult>, id: CategoryId, card: CreditCards.CardResult)
    : Result<seq<CategoryResult>, CalculationError>
  {
    match FindRow(rows, id)
    case None => Ok(rows)
    case Some(i) =>
      var activity :- PaymentActivity(card);
      Ok(rows[i := rows[i].(activity := activity, available := card.paymentAvailable, overspending := NotOverspent)])
  }

  datatype Progress = Progress(rows: seq<CategoryResult>, ready: Money, debt: Money, cards: seq<CardAccountResult>)

  function CardStep(p: Progress, account: CardAccount): Result<Progress, CalculationError> {
    match CreditCards.CalculateCard(account.calculation)
    case Err(_) => Err(CalculationOverflow)
    case Ok(card) =>
      var ready :- Add(p.ready, card.contributions.readyToAssignChange);
      var debt :- Add(p.debt, card.contributions.debtCreated);
      var rows :- WithPayment(Reclassified(p.rows, card, card.available.Keys), account.paymentCategoryId, card);
      Ok(Progress(rows, ready, debt,
                  p.cards + [CardAccountResult(account.accountId, account.paymentCategoryId, card)]))
  }

  function Cards(p: Progress, accounts: seq<CardAccount>): Result<Progress, CalculationError> {
    if accounts == [] then Ok(p)
    else
      var before :- Cards(p, accounts[..|accounts| - 1]);
      CardStep(before, accounts[|accounts| - 1])
  }

  /** Once there are cards, their own count of debt replaces the inferred one. */
  function CalculateMonth(input: MonthInput): Result<MonthResult, CalculationError> {
    var rows :- Rows(input.priorCategories, input.categories);
    var ready :- OpeningReady(input);
    var debt: Money := if input.creditCards == [] then rows.1 else 0;
    var p :- Cards(Progress(rows.0, ready, debt, []), input.creditCards);
    Ok(MonthResult(input.month, p.rows, p.ready, p.debt, p.cards))
  }

  // ----- The loops ----------------------------------------------------------------------------

  lemma {:induction false} FailedRows(prior: seq<PriorCategory>, categories: seq<CategoryInput>, at: nat)
    requires at <= |categories| && Rows(prior, categories[..at]).Err?
    ensures Rows(prior, categories) == Err(CalculationOverflow)
    decreases |categories|
  {
    if at < |categories| {
      assert categories[..|categories| - 1][..at] == categories[..at];
      FailedRows(prior, categories[..|categories| - 1], at);
    } else {
      assert categories[..at] == categories;
      OnlyOverflow(Rows(prior, categories).error);
    }
  }

  lemma {:induction false} FailedCards(p: Progress, accounts: seq<CardAccount>, at: nat)
    requires at <= |accounts| && Cards(p, accounts[..at]).Err?
    ensures Cards(p, accounts) == Err(CalculationOverflow)
    decreases |accounts|
  {
    if at < |accounts| {
      assert accounts[..|accounts| - 1][..at] == accounts[..at];
      FailedCards(p, accounts[..|accounts| - 1], at);
    } else {
      assert accounts[..at] == accounts;
      OnlyOverflow(Cards(p, accounts).error);
    }
  }

  method CategoryLoop(prior: seq<PriorCategory>, categories: seq<CategoryInput>)
    returns (r: Result<(seq<CategoryResult>, Money), CalculationError>)
    ensures r == Rows(prior, categories)
  {
    hide CategoryRow;
    var results: seq<CategoryResult> := [];
    var cardDebt: Money := 0;
    for i := 0 to |categories|
      invariant Rows(prior, categories[..i]) == Ok((results, cardDebt))
    {
      assert categories[..i + 1][..i] == categories[..i];
      if Rows(prior, categories[..i + 1]).Err? {
        FailedRows(prior, categories, i + 1);
      }
      if CategoryRow(prior, categories[i]).Err? {
        OnlyOverflow(CategoryRow(prior, categories[i]).error);
      }
      var row :- CategoryRow(prior, categories[i]);
      cardDebt :- Add(cardDebt, DebtOf(row));
      results := results + [row];
    }
    assert categories[..|categories|] == categories;
    return Ok((results, cardDebt));
  }

  lemma SameIds(rows: seq<CategoryResult>, card: CreditCards.CardResult, ids: set<CategoryId>)
    ensures var r := Reclassified(rows, card, ids);
            && (forall i :: 0 <= i < |rows| ==> r[i].id == rows[i].id)
            && (forall i :: 0 <= i < |rows| ==> FirstRow(r, i) == FirstRow(rows, i))
  {
  }

  /** Patches the classification of the card's categories, one category at a time in any order. */
  method ReclassifyLoop(rows: seq<CategoryResult>, card: CreditCards.CardResult) returns (r: seq<CategoryResult>)
    ensures r == Reclassified(rows, card, card.available.Keys)
  {
    r := rows;
    var remaining := card.available.Keys;
    assert Reclassified(rows, card, {}) == rows;
    while remaining != {}
      invariant remaining <= card.available.Keys
      invariant r == Reclassified(rows, card, card.available.Keys - remaining)
      decreases |remaining|
    {
      var id :| id in remaining;
      SameIds(rows, card, card.available.Keys - remaining);
      var found := FindRow(r, id);
      ghost var finished := card.available.Keys - remaining;
      if found.Some? && OverspentOn(card, id) > 0 {
        r := r[found.value := r[found.value].(overspending := CardOverspent(OverspentOn(card, id)))];
      }
      remaining := remaining - {id};
      assert card.available.Keys - remaining == finished + {id};
      assert r == Reclassified(rows, card, finished + {id});
    }
    assert card.available.Keys - {} == card.available.Keys;
  }

  method CardLoop(start: Progress, accounts: seq<CardAccount>) returns (r: Result<Progress, CalculationError>)
    ensures r == Cards(start, accounts)
  {
    hide WithPayment, Reclassified;
    var p := start;
    for i := 0 to |accounts|
      invariant Cards(start, accounts[..i]) == Ok(p)
    {
      var account := accounts[i];
      assert accounts[..i + 1][..i] == accounts[..i];
      if Cards(start, accounts[..i + 1]).Err? {
        FailedCards(start, accounts, i + 1);
      }
      var calculated := CreditCards.Calculate(account.calculation);
      if calculated.Err? {
        return Err(CalculationOverflow);
      }
      var card := calculated.value;
      var ready :- Add(p.ready, card.contributions.readyToAssignChange);
      var debt :- Add(p.debt, card.contributions.debtCreated);
      var patched := ReclassifyLoop(p.rows, card);
      if WithPayment(patched, account.paymentCategoryId, card).Err? {
        OnlyOverflow(WithPayment(patched, account.paymentCategoryId, card).error);
      }
      var rows :- WithPayment(patched, account.paymentCategoryId, card);
      p := Progress(rows, ready, debt,
                    p.cards + [CardAccountResult(account.accountId, account.paymentCategoryId, card)]);
    }
    assert accounts[..|accounts|] == accounts;
    return Ok(p);
  }

  method Calculate(input: MonthInput) returns (r: Result<MonthResult, CalculationError>)
    ensures r == CalculateMonth(input)
  {
    hide Rows, Cards;
    var rows :- CategoryLoop(input.priorCategories, input.categories);
    var ready :- OpeningReady(input);
    var debt: Money := rows.1;
    if input.creditCards != [] {
      debt := 0;
    }
    var p :- CardLoop(Progress(rows.0, ready, debt, []), input.creditCards);
    return Ok(MonthResult(input.month, p.rows, p.ready, p.debt, p.cards));
  }
}
