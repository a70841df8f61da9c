/** What two consecutive months with card accounts conserve (`src/calculation/budget_month.rs`, lines 146-317). */
module BudgetWithCards {
  import opened Wrappers
  import opened Cents
  import opened Entities
  import opened BudgetMonths
  import opened BudgetChain
  import opened BudgetConservation
  import CreditCards

  // ----- The rows after the cards -------------------------------------------------------------

  function PaymentIds(accounts: seq<CardAccount>): (r: seq<CategoryId>)
    ensures |r| == |accounts| && forall i :: 0 <= i < |r| ==> r[i] == accounts[i].paymentCategoryId
  {
    seq(|accounts|, i requires 0 <= i < |accounts| => accounts[i].paymentCategoryId)
  }

  /** The last account that is paid from a category, which is the one that fills the category's row. */
  function PayerOf(accounts: seq<CardAccount>, id: CategoryId): (r: Option<nat>)
    ensures r.Some? ==> r.value < |accounts| && accounts[r.value].paymentCategoryId == id
    ensures r.None? ==> forall i :: 0 <= i < |accounts| ==> accounts[i].paymentCategoryId != id
  {
    if accounts == [] then None
    else if accounts[|accounts| - 1].paymentCategoryId == id then Some(|accounts| - 1)
    else PayerOf(accounts[..|accounts| - 1], id)
  }

  /** What a month moved into a payment envelope, less what it took out again. */
  function NetPayment(card: CreditCards.CardResult): int {
    card.contributions.fundedSpendingMoved - card.contributions.fundedRefundsReversed - card.contributions.paymentCashUsed
  }

  /** A payment row shows the payment envelope of a card, and is never overspent in cash. */
  predicate ShowsPayment(row: CategoryResult, card: CreditCards.CardResult) {
    row.available == card.paymentAvailable && row.activity == NetPayment(card) && CashOf(row) == 0
  }

  predicate SameMoney(a: CategoryResult, b: CategoryResult) {
    a.available == b.available && a.activity == b.activity && (CashOf(a) == 0 ==> CashOf(b) == 0)
  }

  lemma {:induction false} StepRows(p: Progress, account: CardAccount, i: nat)
    requires CardStep(p, account).Ok? && i < |p.rows| && DistinctIds(RowIds(p.rows))
    ensures var after := CardStep(p, account).value;
            && CreditCards.CalculateCard(account.calculation).Ok?
            && |after.rows| == |p.rows| && after.rows[i].id == p.rows[i].id
            && if p.rows[i].id == account.paymentCategoryId then
                 ShowsPayment(after.rows[i], CreditCards.CalculateCard(account.calculation).value)
               else SameMoney(p.rows[i], after.rows[i])
  {
    hide CreditCards.CalculateCard;
    var card := CreditCards.CalculateCard(account.calculation).value;
    var rows := Reclassified(p.rows, card, card.available.Keys);
    var found := FindRow(rows, account.paymentCategoryId);
    assert RowIds(rows) == RowIds(p.rows);
    if found.Some? && found.value != i {
      assert RowIds(rows)[i] != RowIds(rows)[found.value];
    }
  }

  lemma SameAsItself(rows: seq<CategoryResult>)
    ensures forall i :: 0 <= i < |rows| ==> SameMoney(rows[i], rows[i])
  {
  }

  lemma StepLength(p: Progress, account: CardAccount)
    requires CardStep(p, account).Ok?
    ensures |CardStep(p, account).value.rows| == |p.rows|
  {
    hide CreditCards.CalculateCard;
  }

  /** Unchanged money keeps whatever a row showed before. */
  lemma KeptMoney(first: CategoryResult, before: CategoryResult, after: CategoryResult)
    requires SameMoney(before, after)
    ensures SameMoney(first, before) ==> SameMoney(first, after)
    ensures forall card :: ShowsPayment(before, card) ==> ShowsPayment(after, card)
  {
  }

  /** After all cards a row shows the envelope of its payer, or what it showed before. */
  lemma {:induction false} CardsRows(p: Progress, accounts: seq<CardAccount>)
    requires p.cards == [] && Cards(p, accounts).Ok? && DistinctIds(RowIds(p.rows))
    ensures var after := Cards(p, accounts).value;
            && |after.cards| == |accounts| && RowIds(after.rows) == RowIds(p.rows)
            && forall i :: 0 <= i < |p.rows| ==>
                 var payer := PayerOf(accounts, p.rows[i].id);
                 if payer.Some? then ShowsPayment(after.rows[i], after.cards[payer.value].calculation)
                 else SameMoney(p.rows[i], after.rows[i])
  {
    hide CardStep, CreditCards.CalculateCard, ShowsPayment, SameMoney, DistinctIds;
    if accounts == [] {
      SameAsItself(p.rows);
    } else {
      var init, last := accounts[..|accounts| - 1], accounts[|accounts| - 1];
      CardsRows(p, init);
      var before, after := Cards(p, init).value, Cards(p, accounts).value;
      CardStepReady(before, last);
      StepLength(before, last);
      assert |before.rows| == |RowIds(before.rows)| == |p.rows|;
      forall i | 0 <= i < |p.rows|
        ensures after.rows[i].id == p.rows[i].id
        ensures var payer := PayerOf(accounts, p.rows[i].id);
                if payer.Some? then ShowsPayment(after.rows[i], after.cards[payer.value].calculation)
                else SameMoney(p.rows[i], after.rows[i])
      {
        assert RowIds(before.rows)[i] == RowIds(p.rows)[i];
        StepRows(before, last, i);
        if p.rows[i].id != last.paymentCategoryId {
          KeptMoney(p.rows[i], before.rows[i], after.rows[i]);
          var payer := PayerOf(init, p.rows[i].id);
          if payer.Some? {
            assert after.cards[payer.value] == after.cards[..|before.cards|][payer.value];
            assert before.cards[payer.value] == after.cards[payer.value];
          }
        }
      }
      assert RowIds(after.rows) == RowIds(p.rows);
    }
  }

  // ----- One month ----------------------------------------------------------------------------

  function RowActivity(rows: seq<CategoryResult>): int {
    if rows == [] then 0 else RowActivity(rows[..|rows| - 1]) + rows[|rows| - 1].activity
  }

  /** What a category starts the month from: a payment envelope whole, any other only if positive. */
  function Base(row: CategoryResult, payments: set<CategoryId>): int {
    if row.id in payments then row.available else Positive(row.available)
  }

  function Bases(rows: seq<CategoryResult>, payments: set<CategoryId>): (r: seq<int>)
    ensures |r| == |rows| && forall i :: 0 <= i < |r| ==> r[i] == Base(rows[i], payments)
  {
    seq(|rows|, i requires 0 <= i < |rows| => Base(rows[i], payments))
  }

  /** The shortfall of a row beyond the cash that it reports. */
  function Uncharged(row: CategoryResult, payments: set<CategoryId>): int {
    if row.id in payments then 0 else Magnitude(Min(row.available, 0)) - CashOf(row)
  }

  function UnchargedShortfall(rows: seq<CategoryResult>, payments: set<CategoryId>): int {
    if rows == [] then 0
    else UnchargedShortfall(rows[..|rows| - 1], payments) + Uncharged(rows[|rows| - 1], payments)
  }

  lemma {:induction false} BasesSum(rows: seq<CategoryResult>, payments: set<CategoryId>)
    requires forall i :: 0 <= i < |rows| && rows[i].id in payments ==> CashOf(rows[i]) == 0
    ensures SumSeq(Bases(rows, payments)) == SumAvailable(rows) + CashAmounts(rows) + UnchargedShortfall(rows, payments)
  {
    if rows != [] {
      BasesSum(rows[..|rows| - 1], payments);
      assert Bases(rows, payments)[..|rows| - 1] == Bases(rows[..|rows| - 1], payments);
    }
  }

  /** What a result's rows show beyond what their categories were given and what moved in them. */
  function Starts(rows: seq<CategoryResult>, categories: seq<CategoryInput>): (r: seq<int>)
    requires |rows| == |categories|
    ensures |r| == |rows|
    ensures forall i :: 0 <= i < |r| ==> r[i] == rows[i].available - categories[i].given - rows[i].activity
  {
    seq(|rows|, i requires 0 <= i < |rows| => rows[i].available - categories[i].given - rows[i].activity)
  }

  lemma {:induction false} StartsSum(rows: seq<CategoryResult>, categories: seq<CategoryInput>)
    requires |rows| == |categories|
    ensures SumSeq(Starts(rows, categories)) == SumAvailable(rows) - SumGiven(categories) - RowActivity(rows)
  {
    if rows != [] {
      var n := |rows| - 1;
      StartsSum(rows[..n], categories[..n]);
      assert Starts(rows, categories)[..n] == Starts(rows[..n], categories[..n]);
    }
  }

  lemma RowMoney(prior: seq<PriorCategory>, c: CategoryInput)
    requires CategoryRow(prior, c).Ok?
    ensures var row := CategoryRow(prior, c).value;
            row.id == c.id && row.activity == c.activity && row.available == CarriedOver(prior, c.id) + c.given + c.activity
  {
    hide CarriedOver, FundingOf;
  }

  lemma {:induction false} RowsElementwise(prior: seq<PriorCategory>, categories: seq<CategoryInput>)
    requires Rows(prior, categories).Ok?
    ensures var rows := Rows(prior, categories).value.0;
            && |rows| == |categories|
            && forall i :: 0 <= i < |rows| ==>
                 && rows[i].id == categories[i].id && rows[i].activity == categories[i].activity
                 && rows[i].available == CarriedOver(prior, categories[i].id) + categories[i].given + categories[i].activity
  {
    hide CategoryRow;
    if categories != [] {
      RowsElementwise(prior, categories[..|categories| - 1]);
      RowMoney(prior, categories[|categories| - 1]);
    }
  }

  /** A month's rows: each category in its place, showing its payer's envelope or its own sum. */
  lemma {:induction false} MonthRows(input: MonthInput)
    requires CalculateMonth(input).Ok? && DistinctIds(InputIds(input.categories))
    ensures var r := CalculateMonth(input).value;
            && RowIds(r.categories) == InputIds(input.categories) && |r.creditCards| == |input.creditCards|
            && forall i :: 0 <= i < |input.categories| ==>
                 var c, row := input.categories[i], r.categories[i];
                 var payer := PayerOf(input.creditCards, c.id);
                 if payer.Some? then ShowsPayment(row, r.creditCards[payer.value].calculation)
                 else row.activity == c.activity && row.available == CarriedOver(input.priorCategories, c.id) + c.given + c.activity
  {
    hide Cards, CategoryRow, PayerOf, ShowsPayment, CarriedOver;
    var rows := Rows(input.priorCategories, input.categories).value;
    var debt: Money := if input.creditCards == [] then rows.1 else 0;
    RowsElementwise(input.priorCategories, input.categories);
    assert RowIds(rows.0) == InputIds(input.categories);
    CardsRows(Progress(rows.0, OpeningReady(input).value, debt, []), input.creditCards);
  }

  // ----- Accounts from month to month ---------------------------------------------------------

  /** The accounts of a list in order, as far as preparation leaves them alone. */
  predicate SameAccounts(a: seq<CardAccount>, b: seq<CardAccount>) {
    |a| == |b|
    && forall i :: 0 <= i < |a| ==>
         && a[i].accountId == b[i].accountId && a[i].paymentCategoryId == b[i].paymentCategoryId
         && a[i].calculation.paymentAssignment == b[i].calculation.paymentAssignment
  }

  lemma PreparedOne(input: MonthInput, prior: seq<PriorCategory>, before: MonthResult, account: CardAccount)
    requires PreparedCard(input, prior, before, account).Ok?
    ensures var card := PreparedCard(input, prior, before, account).value;
            && SameAccounts([account], [card])
            && var previous := FindCard(before.creditCards, card.accountId);
               previous.Some? ==> card.calculation.prior == CreditCards.Carried(previous.value.calculation)
  {
    hide RefilledAll, FindCard;
  }

  lemma {:induction false} PreparedAccounts(input: MonthInput, before: MonthResult)
    requires Prepared(input, before).Ok?
    ensures var cards := Prepared(input, before).value.creditCards;
            && SameAccounts(input.creditCards, cards)
            && forall i :: 0 <= i < |cards| ==>
                 var previous := FindCard(before.creditCards, cards[i].accountId);
                 previous.Some? ==> cards[i].calculation.prior == CreditCards.Carried(previous.value.calculation)
  {
    hide SumPrior, SumCash, PreparedCard, FindCard;
    var prior, accounts := PriorRows(before.categories), input.creditCards;
    var cards := Prepared(input, before).value.creditCards;
    forall i | 0 <= i < |accounts|
      ensures SameAccounts([accounts[i]], [cards[i]])
      ensures var previous := FindCard(before.creditCards, cards[i].accountId);
              previous.Some? ==> cards[i].calculation.prior == CreditCards.Carried(previous.value.calculation)
    {
      PreparedElementwise(input, prior, before, accounts, i);
      PreparedOne(input, prior, before, accounts[i]);
    }
    assert forall i :: 0 <= i < |accounts| ==> SameAccounts([accounts[i]], [cards[i]]);
    forall i | 0 <= i < |accounts|
      ensures accounts[i].accountId == cards[i].accountId && accounts[i].paymentCategoryId == cards[i].paymentCategoryId
      ensures accounts[i].calculation.paymentAssignment == cards[i].calculation.paymentAssignment
    {
      assert [accounts[i]][0].accountId == [cards[i]][0].accountId;
    }
  }

  /** Each card of the month was a card of the month before with the same envelope, and gets what the envelope got. */
  predicate CardsContinue(earlier: MonthInput, input: MonthInput) {
    forall i :: 0 <= i < |input.creditCards| ==>
      var a := input.creditCards[i];
      && FindAccount(earlier.creditCards, a.accountId).Some?
      && FindAccount(earlier.creditCards, a.accountId).value.paymentCategoryId == a.paymentCategoryId
      && a.calculation.paymentAssignment == GivenTo(input.categories, a.paymentCategoryId)
  }

  lemma {:induction false} FoundAt(accounts: seq<CardAccount>, others: seq<CardAccount>, cards: seq<CardAccountResult>, id: AccountId)
    returns (b: nat)
    requires SameAccounts(accounts, others) && |cards| == |others|
    requires forall i :: 0 <= i < |cards| ==> cards[i].accountId == others[i].accountId
    requires FindAccount(accounts, id).Some?
    ensures b < |accounts| && FindAccount(accounts, id) == Some(accounts[b]) && FindCard(cards, id) == Some(cards[b])
  {
    if accounts[0].accountId == id {
      b := 0;
    } else {
      var rest := FoundAt(accounts[1..], others[1..], cards[1..], id);
      b := rest + 1;
    }
  }

  lemma MonthCards(input: MonthInput)
    requires CalculateMonth(input).Ok?
    ensures var r := CalculateMonth(input).value;
            && |r.creditCards| == |input.creditCards|
            && forall i :: 0 <= i < |r.creditCards| ==>
                 && r.creditCards[i].accountId == input.creditCards[i].accountId
                 && CreditCards.CalculateCard(input.creditCards[i].calculation) == Ok(r.creditCards[i].calculation)
  {
    hide Rows, Cards, CreditCards.CalculateCard;
    var rows := Rows(input.priorCategories, input.categories).value;
    var debt: Money := if input.creditCards == [] then rows.1 else 0;
    CardsReady(Progress(rows.0, OpeningReady(input).value, debt, []), input.creditCards);
  }

  /** The envelope a card started from is what the row of its payment category showed the month before. */
  lemma {:induction false} EnvelopeCarries(earlier: MonthInput, ready: MonthInput, before: MonthResult, account: CardAccount, j: nat)
    requires SameAccounts(earlier.creditCards, ready.creditCards) && earlier.categories == ready.categories
    requires DistinctIds(InputIds(ready.categories)) && DistinctIds(PaymentIds(earlier.creditCards))
    requires CalculateMonth(ready) == Ok(before)
    requires FindAccount(earlier.creditCards, account.accountId).Some?
    requires FindAccount(earlier.creditCards, account.accountId).value.paymentCategoryId == account.paymentCategoryId
    requires j < |before.categories| && before.categories[j].id == account.paymentCategoryId
    ensures var previous := FindCard(before.creditCards, account.accountId);
            && previous.Some?
            && before.categories[j].available == previous.value.calculation.paymentAvailable
            && CashOf(before.categories[j]) == 0
  {
    hide CalculateMonth, PayerOf, CashOf;
    MonthRows(ready);
    MonthCards(ready);
    var b := FoundAt(earlier.creditCards, ready.creditCards, before.creditCards, account.accountId);
    assert RowIds(before.categories)[j] == InputIds(ready.categories)[j];
    var payer := PayerOf(ready.creditCards, account.paymentCategoryId);
    assert payer.Some? by {
      assert ready.creditCards[b].paymentCategoryId == account.paymentCategoryId;
    }
    assert PaymentIds(earlier.creditCards)[payer.value] == PaymentIds(earlier.creditCards)[b];
    assert payer.value == b;
  }

  lemma {:induction false} GivenToFound(categories: seq<CategoryInput>, i: nat)
    requires DistinctIds(InputIds(categories)) && i < |categories|
    ensures GivenTo(categories, categories[i].id) == categories[i].given
  {
    assert InputIds(categories)[0] == categories[0].id && InputIds(categories)[i] == categories[i].id;
    if i > 0 {
      assert InputIds(categories[1..]) == InputIds(categories)[1..];
      GivenToFound(categories[1..], i - 1);
    }
  }

  lemma PreparedParts(input: MonthInput, before: MonthResult)
    requires Prepared(input, before).Ok?
    ensures var p := Prepared(input, before).value;
            p.categories == input.categories && p.priorCategories == PriorRows(before.categories)
  {
    hide SumPrior, SumCash, PreparedCards, PriorRows;
  }

  lemma EnvelopeGrows(input: CreditCards.CardInput)
    requires CreditCards.CalculateCard(input).Ok?
    ensures var card := CreditCards.CalculateCard(input).value;
            card.paymentAvailable == input.prior.paymentAvailable + input.paymentAssignment + NetPayment(card)
  {
    hide CreditCards.CalculateCard;
    CreditCards.MonthConserves(input);
  }

  /** One category: what its row shows is its base, what it was given, and what moved in it. */
  lemma {:induction false} CategoryStart(earlier: MonthInput, ready: MonthInput, before: MonthResult,
                                         input: MonthInput, after: MonthResult, i: nat, j: nat)
    requires SameAccounts(earlier.creditCards, ready.creditCards) && earlier.categories == ready.categories
    requires DistinctIds(InputIds(ready.categories)) && DistinctIds(PaymentIds(earlier.creditCards))
    requires DistinctIds(InputIds(input.categories)) && CardsContinue(earlier, input)
    requires CalculateMonth(ready) == Ok(before) && Prepared(input, before).Ok?
    requires CalculateMonth(Prepared(input, before).value) == Ok(after)
    requires RowIds(before.categories) == InputIds(ready.categories)
    requires i < |input.categories| == |after.categories| && j < |before.categories|
    requires before.categories[j].id == input.categories[i].id
    ensures after.categories[i].available - input.categories[i].given - after.categories[i].activity
         == Base(before.categories[j], set id | id in PaymentIds(input.creditCards))
  {
    hide CalculateMonth, Prepared, PriorRows, CashOf, DistinctIds, CreditCards.CalculateCard;
    var prepared := Prepared(input, before).value;
    PreparedParts(input, before);
    PreparedAccounts(input, before);
    MonthRows(prepared);
    var id := input.categories[i].id;
    var payer := PayerOf(prepared.creditCards, id);
    if payer.Some? {
      var a := payer.value;
      assert PaymentIds(input.creditCards)[a] == id;
      EnvelopeCarries(earlier, ready, before, input.creditCards[a], j);
      MonthCards(prepared);
      CreditCards.MonthConserves(prepared.creditCards[a].calculation);
      GivenToFound(input.categories, i);
      EnvelopeGrows(prepared.creditCards[a].calculation);
    } else {
      assert forall k :: 0 <= k < |input.creditCards| ==> PaymentIds(input.creditCards)[k] == prepared.creditCards[k].paymentCategoryId;
      assert id !in PaymentIds(input.creditCards);
      CarriedOverFound(before.categories, PriorRows(before.categories), j);
    }
  }

  // ----- Month to month -----------------------------------------------------------------------

  lemma ReadyAccounts(before: seq<MonthResult>, input: MonthInput)
    requires ReadyInput(before, input).Ok?
    ensures SameAccounts(input.creditCards, ReadyInput(before, input).value.creditCards)
    ensures ReadyInput(before, input).value.categories == input.categories
  {
    hide Prepared;
    if before != [] {
      PreparedAccounts(input, before[|before| - 1]);
      PreparedParts(input, before[|before| - 1]);
    }
  }

  lemma PaymentRowHasNoCash(earlier: MonthInput, ready: MonthInput, before: MonthResult, input: MonthInput, j: nat)
    requires SameAccounts(earlier.creditCards, ready.creditCards) && earlier.categories == ready.categories
    requires DistinctIds(InputIds(ready.categories)) && DistinctIds(PaymentIds(earlier.creditCards))
    requires CalculateMonth(ready) == Ok(before) && CardsContinue(earlier, input)
    requires j < |before.categories| && before.categories[j].id in PaymentIds(input.creditCards)
    ensures CashOf(before.categories[j]) == 0
  {
    hide CalculateMonth, CashOf, DistinctIds;
    var a :| 0 <= a < |input.creditCards| && PaymentIds(input.creditCards)[a] == before.categories[j].id;
    EnvelopeCarries(earlier, ready, before, input.creditCards[a], j);
  }

  /** All categories together: what the month shows comes from the bases, what was given and what moved. */
  lemma {:induction false} AvailableFromBases(earlier: MonthInput, ready: MonthInput, before: MonthResult,
                                              input: MonthInput, after: MonthResult)
    requires SameAccounts(earlier.creditCards, ready.creditCards) && earlier.categories == ready.categories
    requires DistinctIds(InputIds(ready.categories)) && DistinctIds(PaymentIds(earlier.creditCards))
    requires DistinctIds(InputIds(input.categories)) && CardsContinue(earlier, input)
    requires forall id :: id in InputIds(ready.categories) <==> id in InputIds(input.categories)
    requires CalculateMonth(ready) == Ok(before) && Prepared(input, before).Ok?
    requires CalculateMonth(Prepared(input, before).value) == Ok(after)
    requires RowIds(before.categories) == InputIds(ready.categories)
    requires RowIds(after.categories) == InputIds(input.categories)
    ensures SumAvailable(after.categories) - SumGiven(input.categories) - RowActivity(after.categories)
         == SumAvailable(before.categories) + CashAmounts(before.categories)
            + UnchargedShortfall(before.categories, set id | id in PaymentIds(input.creditCards))
  {
    hide CalculateMonth, Prepared, Base, DistinctIds, CashOf;
    var payments := set id | id in PaymentIds(input.creditCards);
    var starts, bases := Starts(after.categories, input.categories), Bases(before.categories, payments);
    forall j, i | 0 <= j < |bases| && 0 <= i < |starts| && RowIds(before.categories)[j] == RowIds(after.categories)[i]
      ensures bases[j] == starts[i]
    {
      assert RowIds(after.categories)[i] == InputIds(input.categories)[i];
      CategoryStart(earlier, ready, before, input, after, i, j);
    }
    SameSums(RowIds(before.categories), bases, RowIds(after.categories), starts);
    forall j | 0 <= j < |before.categories| && before.categories[j].id in payments
      ensures CashOf(before.categories[j]) == 0
    {
      PaymentRowHasNoCash(earlier, ready, before, input, j);
    }
    BasesSum(before.categories, payments);
    StartsSum(after.categories, input.categories);
  }

  /**
   From one month to the next, with card accounts that continue: Ready to Assign plus everything
   available changes by the resources, the inflows, what moved in the categories, payment envelopes
   included, and what the cards hand to Ready to Assign, less what later months already took, plus
   the shortfall that categories other than payment envelopes did not report as cash.
   */
  lemma {:induction false} MonthToMonthWithCards(inputs: seq<MonthInput>, k: nat)
    requires 0 < k < |inputs| && Chain(inputs).Ok?
    requires DistinctIds(InputIds(inputs[k - 1].categories)) && DistinctIds(InputIds(inputs[k].categories))
    requires forall id :: id in InputIds(inputs[k - 1].categories) <==> id in InputIds(inputs[k].categories)
    requires DistinctIds(PaymentIds(inputs[k - 1].creditCards)) && CardsContinue(inputs[k - 1], inputs[k])
    requires inputs[k].assignments == SumGiven(inputs[k].categories)
    ensures var results, input := Chain(inputs).value, inputs[k];
            Wealth(results[k]) - Wealth(results[k - 1])
            == input.onBudgetResources + input.uncategorizedInflows + RowActivity(results[k].categories)
               + CardReadyChange(results[k].creditCards) - input.futureAssignments
               + UnchargedShortfall(results[k - 1].categories, set id | id in PaymentIds(input.creditCards))
  {
    hide CalculateMonth, Chain, Prepared, CardsContinue, DistinctIds;
    var results := Chain(inputs).value;
    var before, after, input := results[k - 1], results[k], inputs[k];
    ChainAt(inputs, k - 1);
    ChainAt(inputs, k);
    assert results[..k][k - 1] == before;
    var ready := ReadyInput(results[..k - 1], inputs[k - 1]).value;
    ReadyAccounts(results[..k - 1], inputs[k - 1]);
    assert ReadyInput(results[..k], input) == Prepared(input, before);
    MonthRows(ready);
    PreparedParts(input, before);
    MonthRows(Prepared(input, before).value);
    AvailableFromBases(inputs[k - 1], ready, before, input, after);
    MonthReady(Prepared(input, before).value);
    CarriedReady(input, before, after);
  }
}
