/**
 What a month reports for each category, cards included, and what the next month makes of it
 (`src/calculation/budget_month.rs`, lines 146-317).
 */
module CategoryOutcomes {
  import opened Wrappers
  import opened Cents
  import opened Entities
  import opened BudgetMonths
  import opened BudgetChain
  import opened BudgetConservation
  import opened BudgetWithCards
  import CreditCards

  // ----- What the cards say of a category -----------------------------------------------------

  /** The card counted spending in the category that its events did not fund. */
  predicate Overspends(card: CardAccountResult, id: CategoryId) {
    id in card.calculation.overspending && card.calculation.overspending[id] > 0
  }

  /** The card neither is paid from the category nor overspent it. */
  predicate Silent(card: CardAccountResult, id: CategoryId) {
    card.paymentCategoryId != id && !Overspends(card, id)
  }

  /** Card `a` is the last one that has a say about the category. */
  predicate LastWord(cards: seq<CardAccountResult>, id: CategoryId, a: nat) {
    a < |cards| && !Silent(cards[a], id) && forall b :: a < b < |cards| ==> Silent(cards[b], id)
  }

  lemma StepLists(r: CreditCards.CardResult, e: CreditCards.CardActivity)
    requires CreditCards.Step(r, e).Ok? && r.overspending.Keys <= r.available.Keys
    ensures var next := CreditCards.Step(r, e).value; next.overspending.Keys <= next.available.Keys
  {
  }

  lemma {:induction false} OverspendingIsListed(start: CreditCards.CardResult, events: seq<CreditCards.CardActivity>)
    requires CreditCards.Fold(start, events).Ok? && start.overspending.Keys <= start.available.Keys
    ensures var r := CreditCards.Fold(start, events).value; r.overspending.Keys <= r.available.Keys
  {
    hide CreditCards.Step;
    if events != [] {
      OverspendingIsListed(start, events[..|events| - 1]);
      StepLists(CreditCards.Fold(start, events[..|events| - 1]).value, events[|events| - 1]);
    }
  }

  lemma CardListsOverspending(input: CreditCards.CardInput)
    requires CreditCards.CalculateCard(input).Ok?
    ensures var r := CreditCards.CalculateCard(input).value; r.overspending.Keys <= r.available.Keys
  {
    hide CreditCards.Fold;
    OverspendingIsListed(CreditCards.Start(input).value, input.activity);
  }

  lemma {:induction false} StepOutcome(p: Progress, account: CardAccount, i: nat)
    requires CardStep(p, account).Ok? && i < |p.rows| && DistinctIds(RowIds(p.rows))
    ensures var after := CardStep(p, account).value;
            && |after.rows| == |p.rows| && |after.cards| == |p.cards| + 1 && after.cards[..|p.cards|] == p.cards
            && var row, next, card := p.rows[i], after.rows[i], after.cards[|p.cards|];
               && card.paymentCategoryId == account.paymentCategoryId
               && next.id == row.id && next.given == row.given && next.funding == row.funding
               && next.overspending == if card.paymentCategoryId == row.id then NotOverspent
                                       else if Overspends(card, row.id) then CardOverspent(card.calculation.overspending[row.id])
                                       else row.overspending
  {
    CardListsOverspending(account.calculation);
    hide CreditCards.CalculateCard;
    var card := CreditCards.CalculateCard(account.calculation).value;
    var rows := Reclassified(p.rows, card, card.available.Keys);
    var found := FindRow(rows, account.paymentCategoryId);
    assert RowIds(rows) == RowIds(p.rows);
    assert FirstRow(p.rows, i) by {
      forall j | 0 <= j < i ensures p.rows[j].id != p.rows[i].id {
        assert RowIds(p.rows)[j] != RowIds(p.rows)[i];
      }
    }
    if found.Some? && found.value != i {
      assert RowIds(rows)[i] != RowIds(rows)[found.value];
    }
  }

  /** What the cards so far make of a row. */
  ghost predicate Decided(cards: seq<CardAccountResult>, first: CategoryResult, row: CategoryResult) {
    && row.id == first.id && row.given == first.given && row.funding == first.funding
    && (forall a: nat :: LastWord(cards, row.id, a) ==>
          row.overspending == if cards[a].paymentCategoryId == row.id then NotOverspent
                              else CardOverspent(cards[a].calculation.overspending[row.id]))
    && ((forall a :: 0 <= a < |cards| ==> Silent(cards[a], row.id)) ==> row.overspending == first.overspending)
  }

  lemma OneMoreCard(cards: seq<CardAccountResult>, card: CardAccountResult,
                    first: CategoryResult, row: CategoryResult, next: CategoryResult)
    requires Decided(cards, first, row)
    requires next.id == row.id && next.given == row.given && next.funding == row.funding
    requires next.overspending == if card.paymentCategoryId == row.id then NotOverspent
                                  else if Overspends(card, row.id) then CardOverspent(card.calculation.overspending[row.id])
                                  else row.overspending
    ensures Decided(cards + [card], first, next)
  {
    var all, n := cards + [card], |cards|;
    forall a: nat | LastWord(all, row.id, a) && a < n
      ensures LastWord(cards, row.id, a) && Silent(card, row.id) && all[a] == cards[a]
    {
      assert Silent(all[n], row.id);
      assert forall b :: a < b < n ==> all[b] == cards[b];
    }
    if forall a :: 0 <= a < |all| ==> Silent(all[a], row.id) {
      assert Silent(all[n], row.id);
      assert forall a :: 0 <= a < n ==> all[a] == cards[a];
    }
  }

  lemma NotDecidedYet(row: CategoryResult)
    ensures Decided([], row, row)
  {
  }

  /** A row goes through the cards in order, and the last one with a say about its category classifies it. */
  lemma {:induction false} CardsOutcome(p: Progress, accounts: seq<CardAccount>, i: nat)
    requires p.cards == [] && Cards(p, accounts).Ok? && i < |p.rows| && DistinctIds(RowIds(p.rows))
    ensures var after := Cards(p, accounts).value;
            |after.rows| == |p.rows| && Decided(after.cards, p.rows[i], after.rows[i])
  {
    hide CardStep, DistinctIds, Decided;
    if accounts == [] {
      NotDecidedYet(p.rows[i]);
    } else {
      var init, last := accounts[..|accounts| - 1], accounts[|accounts| - 1];
      CardsRows(p, init);
      CardsOutcome(p, init, i);
      var before, after := Cards(p, init).value, Cards(p, accounts).value;
      StepOutcome(before, last, i);
      var card := after.cards[|before.cards|];
      assert after.cards == before.cards + [card];
      OneMoreCard(before.cards, card, p.rows[i], before.rows[i], after.rows[i]);
    }
  }

  // ----- One month ----------------------------------------------------------------------------

  /** How a category is reported that no card has a say about. */
  predicate ReportsOwn(c: CategoryInput, row: CategoryResult) {
    && (row.available >= 0 ==> row.overspending == NotOverspent)
    && (row.available < 0 && c.creditCardActivity >= 0 ==> row.overspending.CashOverspent? && row.overspending.amount == 0 - row.available)
    && (row.available < 0 && c.creditCardActivity < 0 ==>
          && row.overspending.CardOverspent?
          && row.overspending.amount == 0 - Max(row.available, c.creditCardActivity))
  }

  /** Whether a category is funded, from its target and what it was given. */
  predicate ReportsFunding(c: CategoryInput, row: CategoryResult) {
    match c.target
    case None => row.funding == NoTarget
    case Some(target) =>
      && (c.given >= target ==> row.funding == Funded)
      && (c.given < target && target - c.given <= MAX_CENTS ==> row.funding == Underfunded(target - c.given))
      && (target - c.given > MAX_CENTS ==> row.funding == Underfunded(0))
  }

  lemma {:induction false} FirstCarried(prior: seq<PriorCategory>, id: CategoryId, k: nat)
    requires k <= |prior| && forall j :: 0 <= j < k ==> prior[j].id != id
    ensures k < |prior| && prior[k].id == id ==> CarriedOver(prior, id) == Max(0, prior[k].available)
    ensures k == |prior| ==> CarriedOver(prior, id) == 0
  {
    if k > 0 {
      FirstCarried(prior[1..], id, k - 1);
    }
  }

  lemma RowOwn(prior: seq<PriorCategory>, c: CategoryInput)
    requires CategoryRow(prior, c).Ok?
    ensures var row := CategoryRow(prior, c).value;
            row.id == c.id && row.given == c.given && ReportsOwn(c, row) && ReportsFunding(c, row)
  {
    hide CarriedOver;
  }

  lemma {:induction false} RowsOwn(prior: seq<PriorCategory>, categories: seq<CategoryInput>, i: nat)
    requires Rows(prior, categories).Ok? && i < |categories|
    ensures var rows := Rows(prior, categories).value.0;
            && |rows| == |categories|
            && rows[i].id == categories[i].id && rows[i].given == categories[i].given
            && ReportsOwn(categories[i], rows[i]) && ReportsFunding(categories[i], rows[i])
  {
    hide CategoryRow, ReportsOwn, ReportsFunding;
    RowsElementwise(prior, categories);
    if i < |categories| - 1 {
      RowsElementwise(prior, categories[..|categories| - 1]);
      RowsOwn(prior, categories[..|categories| - 1], i);
    } else {
      RowOwn(prior, categories[i]);
    }
  }

  /** The row of category `i` in a month's result, as the inputs and the card results decide it. */
  ghost predicate Reported(input: MonthInput, r: MonthResult, i: nat)
    requires i < |input.categories| == |r.categories|
  {
    var c, row := input.categories[i], r.categories[i];
    && row.id == c.id && row.given == c.given && ReportsFunding(c, row)
    && (forall a: nat :: LastWord(r.creditCards, c.id, a) ==>
          row.overspending == if r.creditCards[a].paymentCategoryId == c.id then NotOverspent
                              else CardOverspent(r.creditCards[a].calculation.overspending[c.id]))
    && ((forall a :: 0 <= a < |r.creditCards| ==> Silent(r.creditCards[a], c.id)) ==> ReportsOwn(c, row))
  }

  lemma SilentPays(card: CardAccountResult, id: CategoryId)
    requires Silent(card, id)
    ensures card.paymentCategoryId != id
  {
  }

  lemma NoPayer(accounts: seq<CardAccount>, cards: seq<CardAccountResult>, id: CategoryId)
    requires |accounts| == |cards|
    requires forall a :: 0 <= a < |cards| ==> cards[a].paymentCategoryId == accounts[a].paymentCategoryId != id
    ensures PayerOf(accounts, id).None?
  {
  }

  lemma {:induction false} CardsKeepAccounts(p: Progress, accounts: seq<CardAccount>)
    requires p.cards == [] && Cards(p, accounts).Ok?
    ensures var cards := Cards(p, accounts).value.cards;
            |cards| == |accounts|
            && forall a :: 0 <= a < |cards| ==> cards[a].paymentCategoryId == accounts[a].paymentCategoryId
  {
    hide CreditCards.CalculateCard, WithPayment, Reclassified;
    if accounts != [] {
      CardsKeepAccounts(p, accounts[..|accounts| - 1]);
    }
  }

  lemma FundingIsKept(c: CategoryInput, row: CategoryResult, next: CategoryResult)
    requires ReportsFunding(c, row) && next.funding == row.funding
    ensures ReportsFunding(c, next)
  {
  }

  lemma OwnIsKept(c: CategoryInput, row: CategoryResult, next: CategoryResult)
    requires ReportsOwn(c, row) && SameMoney(row, next) && next.overspending == row.overspending
    ensures ReportsOwn(c, next)
  {
  }

  /**
   Every row of a month with distinct categories: its funding follows from the target and what was
   given; the last card that is paid from the category or overspent it decides how it is reported;
   without such a card a shortfall is cash, or on the card as far as the month's card activity goes.
   */
  lemma {:induction false} RowIsReported(input: MonthInput, i: nat)
    requires CalculateMonth(input).Ok? && DistinctIds(InputIds(input.categories)) && i < |input.categories|
    ensures var r := CalculateMonth(input).value;
            |r.categories| == |input.categories| && Reported(input, r, i)
  {
    hide Cards, Rows, ReportsOwn, ReportsFunding, DistinctIds, LastWord, Silent, OpeningReady, PayerOf;
    var rows := Rows(input.priorCategories, input.categories).value;
    var debt: Money := if input.creditCards == [] then rows.1 else 0;
    var p := Progress(rows.0, OpeningReady(input).value, debt, []);
    RowsElementwise(input.priorCategories, input.categories);
    assert RowIds(rows.0) == InputIds(input.categories);
    RowsOwn(input.priorCategories, input.categories, i);
    CardsOutcome(p, input.creditCards, i);
    CardsRows(p, input.creditCards);
    CardsKeepAccounts(p, input.creditCards);
    var r, c := CalculateMonth(input).value, input.categories[i];
    assert Decided(r.creditCards, rows.0[i], r.categories[i]);
    FundingIsKept(c, rows.0[i], r.categories[i]);
    if forall a :: 0 <= a < |r.creditCards| ==> Silent(r.creditCards[a], c.id) {
      forall a | 0 <= a < |r.creditCards| ensures r.creditCards[a].paymentCategoryId != c.id {
        SilentPays(r.creditCards[a], c.id);
      }
      NoPayer(input.creditCards, r.creditCards, c.id);
      assert SameMoney(rows.0[i], r.categories[i]);
      OwnIsKept(c, rows.0[i], r.categories[i]);
    }
  }

  // ----- The next month -----------------------------------------------------------------------

  /** What the next month is charged for one category: a shortfall that neither a card nor card activity explains. */
  ghost function ChargeFor(c: CategoryInput, row: CategoryResult, cards: seq<CardAccountResult>): int {
    if row.available < 0 && c.creditCardActivity >= 0 && (forall a :: 0 <= a < |cards| ==> Silent(cards[a], c.id))
    then 0 - row.available else 0
  }

  ghost function Charge(categories: seq<CategoryInput>, rows: seq<CategoryResult>, cards: seq<CardAccountResult>): int
    requires |categories| == |rows|
  {
    if categories == [] then 0
    else
      var n := |categories| - 1;
      Charge(categories[..n], rows[..n], cards) + ChargeFor(categories[n], rows[n], cards)
  }

  lemma {:induction false} SomeLastWord(cards: seq<CardAccountResult>, id: CategoryId)
    requires exists a :: 0 <= a < |cards| && !Silent(cards[a], id)
    ensures exists a: nat :: LastWord(cards, id, a)
  {
    var n := |cards| - 1;
    if !Silent(cards[n], id) {
      assert LastWord(cards, id, n);
    } else {
      assert exists a :: 0 <= a < |cards[..n]| && !Silent(cards[..n][a], id);
      SomeLastWord(cards[..n], id);
      var a: nat :| LastWord(cards[..n], id, a);
      assert LastWord(cards, id, a);
    }
  }

  lemma ReportedCash(input: MonthInput, r: MonthResult, i: nat)
    requires i < |input.categories| == |r.categories| && Reported(input, r, i)
    ensures CashOf(r.categories[i]) == ChargeFor(input.categories[i], r.categories[i], r.creditCards)
  {
    var id := input.categories[i].id;
    if exists a :: 0 <= a < |r.creditCards| && !Silent(r.creditCards[a], id) {
      SomeLastWord(r.creditCards, id);
      var a: nat :| LastWord(r.creditCards, id, a);
    }
  }

  lemma {:induction false} CashIsCharge(categories: seq<CategoryInput>, rows: seq<CategoryResult>, cards: seq<CardAccountResult>)
    requires |categories| == |rows|
    requires forall i :: 0 <= i < |rows| ==> CashOf(rows[i]) == ChargeFor(categories[i], rows[i], cards)
    ensures CashAmounts(rows) == Charge(categories, rows, cards)
  {
    hide ChargeFor, CashOf;
    if rows != [] {
      var n := |rows| - 1;
      CashIsCharge(categories[..n], rows[..n], cards);
    }
  }

  lemma {:induction false} MonthCharge(input: MonthInput)
    requires CalculateMonth(input).Ok? && DistinctIds(InputIds(input.categories))
    ensures var r := CalculateMonth(input).value;
            |r.categories| == |input.categories| && CashAmounts(r.categories) == Charge(input.categories, r.categories, r.creditCards)
  {
    hide CalculateMonth, Reported, ChargeFor, CashOf, DistinctIds;
    var r := CalculateMonth(input).value;
    MonthRows(input);
    assert |RowIds(r.categories)| == |InputIds(input.categories)|;
    forall i | 0 <= i < |r.categories|
      ensures CashOf(r.categories[i]) == ChargeFor(input.categories[i], r.categories[i], r.creditCards)
    {
      RowIsReported(input, i);
      ReportedCash(input, r, i);
    }
    CashIsCharge(input.categories, r.categories, r.creditCards);
  }

  /**
   Ready to Assign of the next month: what it was, plus the month's resources, inflows and card
   credits, less what it and later months assigned, less exactly the shortfalls that no card and no
   card activity explains.
   */
  lemma {:induction false} NextMonthIsCharged(inputs: seq<MonthInput>, k: nat)
    requires 0 < k < |inputs| && Chain(inputs).Ok? && DistinctIds(InputIds(inputs[k - 1].categories))
    ensures var results, input := Chain(inputs).value, inputs[k];
            var before := results[k - 1];
            && |before.categories| == |inputs[k - 1].categories|
            && results[k].readyToAssign
               == before.readyToAssign + input.onBudgetResources + input.uncategorizedInflows - input.assignments
                  - input.futureAssignments + CardReadyChange(results[k].creditCards)
                  - Charge(inputs[k - 1].categories, before.categories, before.creditCards)
  {
    hide CalculateMonth, Chain, Prepared, DistinctIds, Charge;
    var results := Chain(inputs).value;
    var before := results[k - 1];
    ChainAt(inputs, k - 1);
    ChainAt(inputs, k);
    assert results[..k][k - 1] == before;
    ReadyAccounts(results[..k - 1], inputs[k - 1]);
    MonthCharge(ReadyInput(results[..k - 1], inputs[k - 1]).value);
    assert ReadyInput(results[..k], inputs[k]) == Prepared(inputs[k], before);
    MonthReady(Prepared(inputs[k], before).value);
    CarriedReady(inputs[k], before, results[k]);
  }

  /** What a category starts the next month with. */
  lemma {:induction false} StartsFrom(before: MonthResult, id: CategoryId, j: nat)
    requires DistinctIds(RowIds(before.categories)) && j < |before.categories| && before.categories[j].id == id
    ensures CarriedOver(PriorRows(before.categories), id) == Max(0, before.categories[j].available)
  {
    CarriedOverFound(before.categories, PriorRows(before.categories), j);
  }

  lemma {:induction false} StartsFromNothing(rows: seq<CategoryResult>, id: CategoryId)
    requires forall j :: 0 <= j < |rows| ==> rows[j].id != id
    ensures CarriedOver(PriorRows(rows), id) == 0
  {
    FirstCarried(PriorRows(rows), id, |rows|);
  }

  lemma {:induction false} RefilledLength(input: MonthInput, prior: seq<PriorCategory>,
                                          spending: seq<CreditCards.SpendingCategory>)
    ensures RefilledAll(input, prior, spending).Ok? ==> |RefilledAll(input, prior, spending).value| == |spending|
  {
    if spending != [] {
      RefilledLength(input, prior, spending[..|spending| - 1]);
    }
  }

  lemma {:induction false} RefilledAt(input: MonthInput, prior: seq<PriorCategory>,
                                      spending: seq<CreditCards.SpendingCategory>, s: nat)
    requires RefilledAll(input, prior, spending).Ok? && s < |spending|
    ensures var refilled := RefilledAll(input, prior, spending).value;
            && |refilled| == |spending| && refilled[s].categoryId == spending[s].categoryId
            && refilled[s].available
               == CarriedOver(prior, spending[s].categoryId) + GivenTo(input.categories, spending[s].categoryId)
  {
    hide CarriedOver, GivenTo;
    RefilledLength(input, prior, spending);
    RefilledLength(input, prior, spending[..|spending| - 1]);
    if s < |spending| - 1 {
      RefilledAt(input, prior, spending[..|spending| - 1], s);
    }
  }

  lemma PreparedSpending(input: MonthInput, before: MonthResult, a: nat, s: nat)
    requires Prepared(input, before).Ok? && a < |input.creditCards|
    requires s < |input.creditCards[a].calculation.categories|
    ensures var cards, prior := Prepared(input, before).value.creditCards, PriorRows(before.categories);
            && |cards| == |input.creditCards|
            && var spending, refilled := input.creditCards[a].calculation.categories, cards[a].calculation.categories;
               && |refilled| == |spending| && refilled[s].categoryId == spending[s].categoryId
               && refilled[s].available
                  == CarriedOver(prior, spending[s].categoryId) + GivenTo(input.categories, spending[s].categoryId)
  {
    hide SumPrior, SumCash, RefilledAll, CarriedOver, GivenTo, FindCard, PriorRows;
    var prior := PriorRows(before.categories);
    PreparedElementwise(input, prior, before, input.creditCards, a);
    RefilledAt(input, prior, input.creditCards[a].calculation.categories, s);
  }

  /** The month and its predecessor as the chain calculates them. */
  lemma ConsecutiveMonths(inputs: seq<MonthInput>, k: nat, j: nat)
    requires 0 < k < |inputs| && Chain(inputs).Ok? && DistinctIds(InputIds(inputs[k - 1].categories))
    requires j < |inputs[k - 1].categories|
    ensures var results := Chain(inputs).value;
            && results[..k][k - 1] == results[k - 1]
            && Prepared(inputs[k], results[k - 1]).Ok?
            && ReadyInput(results[..k], inputs[k]) == Prepared(inputs[k], results[k - 1])
            && CalculateMonth(Prepared(inputs[k], results[k - 1]).value) == Ok(results[k])
            && RowIds(results[k - 1].categories) == InputIds(inputs[k - 1].categories)
            && j < |results[k - 1].categories| && results[k - 1].categories[j].id == inputs[k - 1].categories[j].id
  {
    hide CalculateMonth, Chain, Prepared, DistinctIds;
    var results := Chain(inputs).value;
    ChainAt(inputs, k - 1);
    ChainAt(inputs, k);
    ReadyAccounts(results[..k - 1], inputs[k - 1]);
    MonthRows(ReadyInput(results[..k - 1], inputs[k - 1]).value);
    assert RowIds(results[k - 1].categories)[j] == InputIds(inputs[k - 1].categories)[j];
    assert |RowIds(results[k - 1].categories)| == |InputIds(inputs[k - 1].categories)|;
  }

  /**
   From one month to the next a category that no card is paid from shows what was positive of its
   availability, what it is given and what moves in it.
   */
  lemma {:induction false} NextMonthStarts(inputs: seq<MonthInput>, k: nat, i: nat, j: nat)
    requires 0 < k < |inputs| && Chain(inputs).Ok?
    requires DistinctIds(InputIds(inputs[k - 1].categories)) && DistinctIds(InputIds(inputs[k].categories))
    requires i < |inputs[k].categories| && j < |inputs[k - 1].categories|
    requires inputs[k].categories[i].id == inputs[k - 1].categories[j].id
    requires forall a :: 0 <= a < |inputs[k].creditCards| ==> inputs[k].creditCards[a].paymentCategoryId != inputs[k].categories[i].id
    ensures var results, c := Chain(inputs).value, inputs[k].categories[i];
            && j < |results[k - 1].categories| && i < |results[k].categories|
            && results[k].categories[i].activity == c.activity
            && results[k].categories[i].available
               == Max(0, results[k - 1].categories[j].available) + c.given + c.activity
  {
    hide CalculateMonth, Chain, Prepared, DistinctIds, CarriedOver, PriorRows, ReadyInput;
    var results, input := Chain(inputs).value, inputs[k];
    ConsecutiveMonths(inputs, k, j);
    var prepared := Prepared(input, results[k - 1]).value;
    PreparedParts(input, results[k - 1]);
    PreparedAccounts(input, results[k - 1]);
    MonthRows(prepared);
    assert |RowIds(results[k].categories)| == |InputIds(input.categories)|;
    StartsFrom(results[k - 1], input.categories[i].id, j);
    assert PayerOf(prepared.creditCards, input.categories[i].id).None?;
  }

  /**
   Each card of the next month that lists a category gets it with what was positive of its
   availability and what it is given, whatever the list said before.
   */
  lemma {:induction false} NextMonthRefills(inputs: seq<MonthInput>, k: nat, i: nat, j: nat, a: nat, s: nat)
    requires 0 < k < |inputs| && Chain(inputs).Ok?
    requires DistinctIds(InputIds(inputs[k - 1].categories)) && DistinctIds(InputIds(inputs[k].categories))
    requires i < |inputs[k].categories| && j < |inputs[k - 1].categories|
    requires inputs[k].categories[i].id == inputs[k - 1].categories[j].id
    requires a < |inputs[k].creditCards| && s < |inputs[k].creditCards[a].calculation.categories|
    requires inputs[k].creditCards[a].calculation.categories[s].categoryId == inputs[k].categories[i].id
    ensures var results, c := Chain(inputs).value, inputs[k].categories[i];
            var ready := ReadyInput(results[..k], inputs[k]);
            && j < |results[k - 1].categories|
            && ready.Ok? && a < |ready.value.creditCards| && s < |ready.value.creditCards[a].calculation.categories|
            && var refilled := ready.value.creditCards[a].calculation.categories[s];
               && refilled.categoryId == c.id
               && refilled.available == Max(0, results[k - 1].categories[j].available) + c.given
  {
    hide CalculateMonth, Chain, Prepared, DistinctIds, CarriedOver, GivenTo, PriorRows, ReadyInput;
    ConsecutiveMonths(inputs, k, j);
    var before, c := Chain(inputs).value[k - 1], inputs[k].categories[i];
    StartsFrom(before, c.id, j);
    GivenToFound(inputs[k].categories, i);
    PreparedSpending(inputs[k], before, a, s);
  }

  // ----- Preparing ----------------------------------------------------------------------------

  lemma OneMorePositive(rows: seq<CategoryResult>)
    requires rows != []
    ensures SumPositive(rows) == SumPositive(rows[..|rows| - 1]) + Positive(rows[|rows| - 1].available)
  {
  }

  lemma PrefixesFit(rows: seq<CategoryResult>)
    requires rows != []
    ensures var n := |rows| - 1;
            (forall k :: 0 <= k <= |rows| ==> InRange(SumPositive(rows[..k])))
            <==> (forall k :: 0 <= k <= n ==> InRange(SumPositive(rows[..n][..k]))) && InRange(SumPositive(rows))
  {
    hide SumPositive;
    var n := |rows| - 1;
    assert rows[..|rows|] == rows;
    assert forall k :: 0 <= k <= n ==> rows[..n][..k] == rows[..k];
    if (forall k :: 0 <= k <= n ==> InRange(SumPositive(rows[..n][..k]))) && InRange(SumPositive(rows)) {
      forall k | 0 <= k <= |rows| ensures InRange(SumPositive(rows[..k])) {
        if k <= n {
          assert InRange(SumPositive(rows[..n][..k]));
        }
      }
    }
  }

  lemma {:induction false} SumPriorIs(rows: seq<CategoryResult>)
    ensures SumPrior(PriorRows(rows)).Ok? <==> forall k :: 0 <= k <= |rows| ==> InRange(SumPositive(rows[..k]))
    ensures SumPrior(PriorRows(rows)).Ok? ==> SumPrior(PriorRows(rows)).value == SumPositive(rows)
  {
    if rows != [] {
      var n := |rows| - 1;
      SumPriorIs(rows[..n]);
      assert PriorRows(rows)[..n] == PriorRows(rows[..n]);
      hide PriorRows, SumPositive;
      PrefixesFit(rows);
      assert SumPositive(rows) == SumPositive(rows[..n]) + Positive(rows[n].available) by { OneMorePositive(rows); }
      assert PriorRows(rows)[n].available == Positive(rows[n].available);
    } else {
      assert rows[..0] == rows;
    }
  }

  /**
   A month is prepared from the result before it: its own facts stay, Ready to Assign carries over,
   and what categories carried over in all has a 64-bit value, in every sum on the way.
   */
  lemma {:induction false} PreparedWrites(input: MonthInput, before: MonthResult)
    requires Prepared(input, before).Ok?
    ensures var p := Prepared(input, before).value;
            && p.month == input.month && p.categories == input.categories && p.assignments == input.assignments
            && p.onBudgetResources == input.onBudgetResources && p.uncategorizedInflows == input.uncategorizedInflows
            && p.futureAssignments == input.futureAssignments
            && p.priorReadyToAssign == before.readyToAssign
            && p.positiveRollover == SumPositive(before.categories)
    ensures forall k :: 0 <= k <= |before.categories| ==> InRange(SumPositive(before.categories[..k]))
  {
    hide SumPrior, SumCash, PreparedCards, PriorRows, SumPositive;
    SumPriorIs(before.categories);
  }
}
