/** What a chain of budget months conserves (`src/calculation/budget_month.rs`, lines 146-317). */
module BudgetConservation {
  import opened Wrappers
  import opened Cents
  import opened Entities
  import opened Sums
  import opened BudgetMonths
  import opened BudgetChain
  import CreditCards

  // ----- Sums over the rows of one month ------------------------------------------------------

  function SumAvailable(rows: seq<CategoryResult>): int {
    if rows == [] then 0 else SumAvailable(rows[..|rows| - 1]) + rows[|rows| - 1].available
  }

  function SumPositive(rows: seq<CategoryResult>): int {
    if rows == [] then 0 else SumPositive(rows[..|rows| - 1]) + Positive(rows[|rows| - 1].available)
  }

  function CashAmounts(rows: seq<CategoryResult>): int {
    if rows == [] then 0 else CashAmounts(rows[..|rows| - 1]) + CashOf(rows[|rows| - 1])
  }

  /** The shortfall of a row classified as card overspending, all of it and not only the card's part. */
  function CardClassified(row: CategoryResult): int {
    if row.overspending.CardOverspent? then Magnitude(Min(row.available, 0)) else 0
  }

  function CardClassifiedShortfall(rows: seq<CategoryResult>): int {
    if rows == [] then 0 else CardClassifiedShortfall(rows[..|rows| - 1]) + CardClassified(rows[|rows| - 1])
  }

  /** The cash part of a shortfall classified as card overspending, which no month is charged for. */
  function Forgiven(row: CategoryResult): int {
    CardClassified(row) - DebtOf(row)
  }

  function ForgivenCash(rows: seq<CategoryResult>): int {
    if rows == [] then 0 else ForgivenCash(rows[..|rows| - 1]) + Forgiven(rows[|rows| - 1])
  }

  function SumDebt(rows: seq<CategoryResult>): int {
    if rows == [] then 0 else SumDebt(rows[..|rows| - 1]) + DebtOf(rows[|rows| - 1])
  }

  function SumGiven(categories: seq<CategoryInput>): int {
    if categories == [] then 0 else SumGiven(categories[..|categories| - 1]) + categories[|categories| - 1].given
  }

  function SumActivity(categories: seq<CategoryInput>): int {
    if categories == [] then 0 else SumActivity(categories[..|categories| - 1]) + categories[|categories| - 1].activity
  }

  function SumCarried(prior: seq<PriorCategory>, categories: seq<CategoryInput>): int {
    if categories == [] then 0
    else SumCarried(prior, categories[..|categories| - 1]) + CarriedOver(prior, categories[|categories| - 1].id)
  }

  /** A row overspent in cash is short by exactly the amount it reports; one not overspent is not short. */
  predicate Classified(row: CategoryResult) {
    match row.overspending
    case NotOverspent => row.available >= 0
    case CashOverspent(amount) => row.available < 0 && amount == 0 - row.available
    case CardOverspent(amount) => row.available < 0 && 0 < amount <= 0 - row.available
  }

  lemma RowIsClassified(prior: seq<PriorCategory>, c: CategoryInput)
    requires CategoryRow(prior, c).Ok?
    ensures var row := CategoryRow(prior, c).value;
            && Classified(row) && row.id == c.id
            && row.available == CarriedOver(prior, c.id) + c.given + c.activity
  {
    hide CarriedOver;
  }

  /** A shortfall of which the month's card spending explains only a part. */
  predicate PartlyOnCard(c: CategoryInput, available: int) {
    available < 0 && c.creditCardActivity < 0 && 0 - c.creditCardActivity < 0 - available
  }

  /**
   The cash and the debt that a row reports make up its whole shortfall if and only if the shortfall
   is not partly on a card; then the part that is not on the card is reported nowhere.
   */
  lemma {:induction false} ShortfallReportedExactly(prior: seq<PriorCategory>, c: CategoryInput)
    requires CategoryRow(prior, c).Ok?
    ensures var row := CategoryRow(prior, c).value;
            && (CashOf(row) + DebtOf(row) == Magnitude(Min(row.available, 0)) <==> !PartlyOnCard(c, row.available))
            && Forgiven(row) == if PartlyOnCard(c, row.available) then c.creditCardActivity - row.available else 0
  {
    hide CarriedOver, FundingOf;
  }

  /** A category with nothing assigned that spent 100, of it 30 by card: debt of 30, and no cash overspending. */
  lemma CashIsForgiven()
    ensures var c := CategoryInput(1, 0, -100, None, -30);
            && CategoryRow([], c).Ok?
            && var row := CategoryRow([], c).value;
               row.available == -100 && row.overspending == CardOverspent(30) && CashOf(row) == 0 && Forgiven(row) == 70
  {
  }

  lemma {:induction false} RowSums(prior: seq<PriorCategory>, categories: seq<CategoryInput>)
    requires Rows(prior, categories).Ok?
    ensures var rows := Rows(prior, categories).value.0;
            && |rows| == |categories|
            && (forall i :: 0 <= i < |rows| ==> rows[i].id == categories[i].id && Classified(rows[i]))
            && SumAvailable(rows) == SumCarried(prior, categories) + SumGiven(categories) + SumActivity(categories)
  {
    hide CategoryRow, Classified;
    if categories != [] {
      RowSums(prior, categories[..|categories| - 1]);
      RowIsClassified(prior, categories[|categories| - 1]);
      var rows, init := Rows(prior, categories).value.0, Rows(prior, categories[..|categories| - 1]).value.0;
      assert rows[..|init|] == init;
    }
  }

  lemma ForgivenPositive(c: CategoryInput, available: int)
    ensures PartlyOnCard(c, available) ==> c.creditCardActivity - available > 0
  {
  }

  /** The debt inferred from a month's rows, and when some cash is forgiven beside it. */
  lemma {:induction false} RowDebts(prior: seq<PriorCategory>, categories: seq<CategoryInput>)
    requires Rows(prior, categories).Ok?
    ensures var (rows, debt) := Rows(prior, categories).value;
            && |rows| == |categories| && debt == SumDebt(rows) && ForgivenCash(rows) >= 0
            && (ForgivenCash(rows) == 0 <==>
                  forall i :: 0 <= i < |rows| ==> !PartlyOnCard(categories[i], rows[i].available))
  {
    hide CategoryRow, PartlyOnCard, DebtOf;
    if categories != [] {
      var init, last := categories[..|categories| - 1], categories[|categories| - 1];
      RowDebts(prior, init);
      ShortfallReportedExactly(prior, last);
      var rows, before := Rows(prior, categories).value.0, Rows(prior, init).value.0;
      assert rows[..|before|] == before;
      assert Forgiven(rows[|before|]) >= 0 && (Forgiven(rows[|before|]) == 0 <==> !PartlyOnCard(last, rows[|before|].available)) by {
        ForgivenPositive(last, rows[|before|].available);
      }
    }
  }

  lemma {:induction false} CardShortfallSplits(rows: seq<CategoryResult>)
    ensures CardClassifiedShortfall(rows) == SumDebt(rows) + ForgivenCash(rows)
  {
    if rows != [] {
      CardShortfallSplits(rows[..|rows| - 1]);
    }
  }

  lemma {:induction false} PositiveSplits(rows: seq<CategoryResult>)
    requires forall i :: 0 <= i < |rows| ==> Classified(rows[i])
    ensures SumPositive(rows) == SumAvailable(rows) + CashAmounts(rows) + CardClassifiedShortfall(rows)
  {
    if rows != [] {
      PositiveSplits(rows[..|rows| - 1]);
      assert Classified(rows[|rows| - 1]);
    }
  }

  lemma {:induction false} SumCashIsExact(rows: seq<CategoryResult>)
    requires SumCash(rows).Ok?
    ensures SumCash(rows).value == CashAmounts(rows)
  {
    if rows != [] {
      SumCashIsExact(rows[..|rows| - 1]);
    }
  }

  // ----- The same categories in another order -------------------------------------------------

  function RowIds(rows: seq<CategoryResult>): (r: seq<CategoryId>)
    ensures |r| == |rows| && forall i :: 0 <= i < |r| ==> r[i] == rows[i].id
  {
    seq(|rows|, i requires 0 <= i < |rows| => rows[i].id)
  }

  function InputIds(categories: seq<CategoryInput>): (r: seq<CategoryId>)
    ensures |r| == |categories| && forall i :: 0 <= i < |r| ==> r[i] == categories[i].id
  {
    seq(|categories|, i requires 0 <= i < |categories| => categories[i].id)
  }

  function Zip(ids: seq<CategoryId>, values: seq<int>): map<CategoryId, int>
    requires |ids| == |values|
  {
    if ids == [] then map[] else Zip(ids[..|ids| - 1], values[..|ids| - 1])[ids[|ids| - 1] := values[|ids| - 1]]
  }

  function SumSeq(values: seq<int>): int {
    if values == [] then 0 else SumSeq(values[..|values| - 1]) + values[|values| - 1]
  }

  lemma {:induction false} ZipKeys(ids: seq<CategoryId>, values: seq<int>)
    requires |ids| == |values|
    ensures forall id :: id in Zip(ids, values) <==> id in ids
  {
    if ids != [] {
      var n := |ids| - 1;
      ZipKeys(ids[..n], values[..n]);
      assert ids == ids[..n] + [ids[n]];
    }
  }

  lemma {:induction false} ZipValue(ids: seq<CategoryId>, values: seq<int>, i: nat)
    requires |ids| == |values| && DistinctIds(ids) && i < |ids|
    ensures ids[i] in Zip(ids, values) && Zip(ids, values)[ids[i]] == values[i]
  {
    ZipKeys(ids, values);
    var n := |ids| - 1;
    if i < n {
      ZipValue(ids[..n], values[..n], i);
    }
  }

  lemma {:induction false} ZipTotal(ids: seq<CategoryId>, values: seq<int>)
    requires |ids| == |values| && DistinctIds(ids)
    ensures Total(Zip(ids, values)) == SumSeq(values)
  {
    if ids == [] {
      TotalEmpty<CategoryId>();
    } else {
      var n := |ids| - 1;
      ZipKeys(ids[..n], values[..n]);
      ZipTotal(ids[..n], values[..n]);
      TotalInsert(Zip(ids[..n], values[..n]), ids[n], values[n]);
    }
  }

  /** Values by distinct category add up to the same sum in any order of the categories. */
  lemma {:induction false} SameSums(ids: seq<CategoryId>, values: seq<int>, others: seq<CategoryId>, their: seq<int>)
    requires |ids| == |values| && |others| == |their| && DistinctIds(ids) && DistinctIds(others)
    requires forall id :: id in ids <==> id in others
    requires forall i, j :: 0 <= i < |ids| && 0 <= j < |others| && ids[i] == others[j] ==> values[i] == their[j]
    ensures SumSeq(values) == SumSeq(their)
  {
    hide Zip, SumSeq;
    ZipTotal(ids, values);
    ZipTotal(others, their);
    ZipKeys(ids, values);
    ZipKeys(others, their);
    var a, b := Zip(ids, values), Zip(others, their);
    forall id | id in a
      ensures id in b && a[id] == b[id]
    {
      var i :| 0 <= i < |ids| && ids[i] == id;
      var j :| 0 <= j < |others| && others[j] == id;
      ZipValue(ids, values, i);
      ZipValue(others, their, j);
    }
    assert a == b;
  }

  function PositiveParts(rows: seq<CategoryResult>): (r: seq<int>)
    ensures |r| == |rows| && forall i :: 0 <= i < |r| ==> r[i] == Positive(rows[i].available)
  {
    seq(|rows|, i requires 0 <= i < |rows| => Positive(rows[i].available))
  }

  lemma {:induction false} PositivePartsSum(rows: seq<CategoryResult>)
    ensures SumSeq(PositiveParts(rows)) == SumPositive(rows)
  {
    if rows != [] {
      PositivePartsSum(rows[..|rows| - 1]);
      assert PositiveParts(rows)[..|rows| - 1] == PositiveParts(rows[..|rows| - 1]);
    }
  }

  function CarriedParts(prior: seq<PriorCategory>, categories: seq<CategoryInput>): (r: seq<int>)
    ensures |r| == |categories| && forall i :: 0 <= i < |r| ==> r[i] == CarriedOver(prior, categories[i].id)
  {
    seq(|categories|, i requires 0 <= i < |categories| => CarriedOver(prior, categories[i].id))
  }

  lemma {:induction false} CarriedPartsSum(prior: seq<PriorCategory>, categories: seq<CategoryInput>)
    ensures SumSeq(CarriedParts(prior, categories)) == SumCarried(prior, categories)
  {
    if categories != [] {
      CarriedPartsSum(prior, categories[..|categories| - 1]);
      assert CarriedParts(prior, categories)[..|categories| - 1] == CarriedParts(prior, categories[..|categories| - 1]);
    }
  }

  lemma {:induction false} CarriedOverFound(rows: seq<CategoryResult>, prior: seq<PriorCategory>, i: nat)
    requires |prior| == |rows| && i < |rows| && DistinctIds(RowIds(rows))
    requires forall k :: 0 <= k < |rows| ==> prior[k] == PriorCategory(rows[k].id, Positive(rows[k].available))
    ensures CarriedOver(prior, rows[i].id) == Positive(rows[i].available)
    decreases |rows|
  {
    assert RowIds(rows)[0] == rows[0].id && RowIds(rows)[i] == rows[i].id;
    if i > 0 {
      assert RowIds(rows[1..]) == RowIds(rows)[1..];
      CarriedOverFound(rows[1..], prior[1..], i - 1);
    }
  }

  /** The same distinct categories, in any order, receive all of the positive availability. */
  lemma EverythingIsCarried(rows: seq<CategoryResult>, categories: seq<CategoryInput>)
    requires DistinctIds(RowIds(rows)) && DistinctIds(InputIds(categories))
    requires forall id :: id in RowIds(rows) <==> id in InputIds(categories)
    ensures SumCarried(PriorRows(rows), categories) == SumPositive(rows)
  {
    var prior := PriorRows(rows);
    forall i, j | 0 <= i < |rows| && 0 <= j < |categories| && RowIds(rows)[i] == InputIds(categories)[j]
      ensures PositiveParts(rows)[i] == CarriedParts(prior, categories)[j]
    {
      CarriedOverFound(rows, prior, i);
    }
    SameSums(RowIds(rows), PositiveParts(rows), InputIds(categories), CarriedParts(prior, categories));
    PositivePartsSum(rows);
    CarriedPartsSum(prior, categories);
  }

  // ----- Month to month -----------------------------------------------------------------------

  /** A month without cards that assigns what its categories were given, over distinct categories. */
  predicate Plain(input: MonthInput) {
    && input.creditCards == []
    && input.assignments == SumGiven(input.categories)
    && DistinctIds(InputIds(input.categories))
  }

  lemma PlainMonth(input: MonthInput)
    requires Plain(input) && CalculateMonth(input).Ok?
    ensures var r := CalculateMonth(input).value;
            && Rows(input.priorCategories, input.categories).Ok?
            && (r.categories, r.debtCreated) == Rows(input.priorCategories, input.categories).value
            && r.readyToAssign == input.onBudgetResources + input.priorReadyToAssign + input.uncategorizedInflows
                                  - input.assignments - input.priorCashOverspending - input.futureAssignments
  {
    hide Rows;
  }

  /** Ready to Assign and everything available in categories. */
  function Wealth(r: MonthResult): int {
    r.readyToAssign + SumAvailable(r.categories)
  }

  lemma PlainPreparation(input: MonthInput, before: MonthResult)
    requires input.creditCards == [] && Prepared(input, before).Ok?
    ensures var p := Prepared(input, before).value;
            && SumCash(before.categories).Ok?
            && p == input.(priorReadyToAssign := before.readyToAssign, priorCategories := PriorRows(before.categories),
                           positiveRollover := p.positiveRollover,
                           priorCashOverspending := SumCash(before.categories).value)
  {
    hide SumCash, SumPrior, PriorRows;
    assert PreparedCards(input, PriorRows(before.categories), before, []) == Ok([]);
  }

  lemma EarlierIsPlain(before: seq<MonthResult>, input: MonthInput)
    requires Plain(input) && ReadyInput(before, input).Ok?
    ensures Plain(ReadyInput(before, input).value)
    ensures ReadyInput(before, input).value.categories == input.categories
  {
    hide Prepared;
    if before != [] {
      PlainPreparation(input, before[|before| - 1]);
    }
  }

  /**
   From one month to the next, Ready to Assign plus total availability changes by exactly the
   resources, inflows and activity, less what later months already took, plus the card debt that the
   earlier month created, plus the cash it forgave in categories whose shortfall was partly on a
   card. Without such a category nothing is forgiven.
   */
  lemma {:induction false} MonthToMonth(inputs: seq<MonthInput>, k: nat)
    requires 0 < k < |inputs| && Chain(inputs).Ok?
    requires Plain(inputs[k - 1]) && Plain(inputs[k])
    requires forall id :: id in InputIds(inputs[k - 1].categories) <==> id in InputIds(inputs[k].categories)
    ensures var results, input := Chain(inputs).value, inputs[k];
            Wealth(results[k]) - Wealth(results[k - 1])
            == input.onBudgetResources + input.uncategorizedInflows + SumActivity(input.categories)
               - input.futureAssignments + results[k - 1].debtCreated + ForgivenCash(results[k - 1].categories)
    ensures var earlier, rows := inputs[k - 1].categories, Chain(inputs).value[k - 1].categories;
            |rows| == |earlier| && ForgivenCash(rows) >= 0
            && (ForgivenCash(rows) == 0 <==> forall i :: 0 <= i < |rows| ==> !PartlyOnCard(earlier[i], rows[i].available))
  {
    hide CalculateMonth, Rows, Chain, Prepared, Classified, PriorRows, PartlyOnCard, ForgivenCash;
    var results := Chain(inputs).value;
    var before := results[k - 1];
    ChainAt(inputs, k - 1);
    ChainAt(inputs, k);
    assert results[..k][k - 1] == before;
    var earlier := ReadyInput(results[..k - 1], inputs[k - 1]).value;
    EarlierIsPlain(results[..k - 1], inputs[k - 1]);
    PlainMonth(earlier);
    RowSums(earlier.priorCategories, earlier.categories);
    RowDebts(earlier.priorCategories, earlier.categories);
    CardShortfallSplits(before.categories);
    PositiveSplits(before.categories);
    assert RowIds(before.categories) == InputIds(inputs[k - 1].categories);
    PlainPreparation(inputs[k], before);
    var prepared := Prepared(inputs[k], before).value;
    assert ReadyInput(results[..k], inputs[k]) == Prepared(inputs[k], before);
    PlainMonth(prepared);
    RowSums(prepared.priorCategories, prepared.categories);
    EverythingIsCarried(before.categories, inputs[k].categories);
    SumCashIsExact(before.categories);
  }

  // ----- Ready to Assign telescopes -----------------------------------------------------------

  function CardReadyChange(cards: seq<CardAccountResult>): int {
    if cards == [] then 0
    else CardReadyChange(cards[..|cards| - 1]) + cards[|cards| - 1].calculation.contributions.readyToAssignChange
  }

  function CardDebt(cards: seq<CardAccountResult>): int {
    if cards == [] then 0
    else CardDebt(cards[..|cards| - 1]) + cards[|cards| - 1].calculation.contributions.debtCreated
  }

  lemma CardStepReady(p: Progress, account: CardAccount)
    requires CardStep(p, account).Ok?
    ensures var after := CardStep(p, account).value;
            && |after.cards| == |p.cards| + 1 && after.cards[..|p.cards|] == p.cards
            && var card := after.cards[|p.cards|];
               && card.accountId == account.accountId
               && CreditCards.CalculateCard(account.calculation) == Ok(card.calculation)
               && after.ready == p.ready + card.calculation.contributions.readyToAssignChange
               && after.debt == p.debt + card.calculation.contributions.debtCreated
  {
    hide WithPayment, Reclassified, CreditCards.CalculateCard;
  }

  lemma {:induction false} CardsReady(p: Progress, accounts: seq<CardAccount>)
    requires p.cards == [] && Cards(p, accounts).Ok?
    ensures var after := Cards(p, accounts).value;
            && after.ready == p.ready + CardReadyChange(after.cards)
            && after.debt == p.debt + CardDebt(after.cards)
            && |after.cards| == |accounts|
            && (forall i :: 0 <= i < |accounts| ==>
                  && after.cards[i].accountId == accounts[i].accountId
                  && CreditCards.CalculateCard(accounts[i].calculation) == Ok(after.cards[i].calculation))
  {
    hide CardStep, CreditCards.CalculateCard;
    if accounts != [] {
      var init, last := accounts[..|accounts| - 1], accounts[|accounts| - 1];
      CardsReady(p, init);
      var before, after := Cards(p, init).value, Cards(p, accounts).value;
      CardStepReady(before, last);
      assert forall i :: 0 <= i < |init| ==> after.cards[i] == after.cards[..|before.cards|][i];
    }
  }

  /** What a month adds to Ready to Assign apart from what it carries over. */
  function OwnReady(input: MonthInput, r: MonthResult): int {
    input.onBudgetResources + input.uncategorizedInflows - input.assignments - input.futureAssignments
    + CardReadyChange(r.creditCards)
  }

  lemma MonthReady(input: MonthInput)
    requires CalculateMonth(input).Ok?
    ensures var r := CalculateMonth(input).value;
            && r.readyToAssign == input.priorReadyToAssign - input.priorCashOverspending + OwnReady(input, r)
            && (input.creditCards != [] ==> r.debtCreated == CardDebt(r.creditCards))
  {
    hide Rows, Cards;
    var rows := Rows(input.priorCategories, input.categories).value;
    var debt: Money := if input.creditCards == [] then rows.1 else 0;
    CardsReady(Progress(rows.0, OpeningReady(input).value, debt, []), input.creditCards);
  }

  /** The sum over the months before `n` of what each added, less the cash it overspent. */
  function ReadySoFar(inputs: seq<MonthInput>, results: seq<MonthResult>, n: nat): int
    requires n <= |inputs| == |results|
  {
    if n == 0 then 0
    else ReadySoFar(inputs, results, n - 1) + OwnReady(inputs[n - 1], results[n - 1])
         - CashAmounts(results[n - 1].categories)
  }

  lemma CarriedReady(input: MonthInput, before: MonthResult, r: MonthResult)
    requires Prepared(input, before).Ok?
    ensures var p := Prepared(input, before).value;
            && p.priorReadyToAssign == before.readyToAssign
            && p.priorCashOverspending == CashAmounts(before.categories)
            && OwnReady(p, r) == OwnReady(input, r)
  {
    hide SumPrior, PriorRows, PreparedCards;
    SumCashIsExact(before.categories);
  }

  /**
   Ready to Assign of any month is what the first month started with plus, over all earlier months,
   what each of them added less the cash it overspent, cards included.
   */
  lemma {:induction false} ReadyTelescopes(inputs: seq<MonthInput>, n: nat)
    requires n < |inputs| && Chain(inputs).Ok?
    ensures var results := Chain(inputs).value;
            results[n].readyToAssign
            == inputs[0].priorReadyToAssign - inputs[0].priorCashOverspending
               + ReadySoFar(inputs, results, n) + OwnReady(inputs[n], results[n])
  {
    hide CalculateMonth, Chain, Prepared, OwnReady, CashAmounts;
    var results := Chain(inputs).value;
    ChainAt(inputs, n);
    if n == 0 {
      MonthReady(inputs[0]);
    } else {
      ReadyTelescopes(inputs, n - 1);
      var before := results[n - 1];
      assert results[..n][n - 1] == before;
      var prepared := Prepared(inputs[n], before).value;
      MonthReady(prepared);
      CarriedReady(inputs[n], before, results[n]);
    }
  }

  // ----- One card through the months ----------------------------------------------------------

  function FindAccount(accounts: seq<CardAccount>, id: AccountId): Option<CardAccount> {
    if accounts == [] then None
    else if accounts[0].accountId == id then Some(accounts[0])
    else FindAccount(accounts[1..], id)
  }

  /** The result of an account belongs to the first input of that account. */
  lemma {:induction false} FoundTogether(accounts: seq<CardAccount>, cards: seq<CardAccountResult>, id: AccountId)
    requires |accounts| == |cards|
    requires forall i :: 0 <= i < |accounts| ==>
               && cards[i].accountId == accounts[i].accountId
               && CreditCards.CalculateCard(accounts[i].calculation) == Ok(cards[i].calculation)
    ensures var a, c := FindAccount(accounts, id), FindCard(cards, id);
            && (a.Some? <==> c.Some?)
            && (a.Some? ==> CreditCards.CalculateCard(a.value.calculation) == Ok(c.value.calculation))
  {
    if accounts != [] && accounts[0].accountId != id {
      FoundTogether(accounts[1..], cards[1..], id);
    }
  }

  /** Preparation keeps an account's events and assignment and hands it the earlier state. */
  lemma {:induction false} PreparedElementwise(input: MonthInput, prior: seq<PriorCategory>, before: MonthResult,
                                               accounts: seq<CardAccount>, i: nat)
    requires PreparedCards(input, prior, before, accounts).Ok? && i < |accounts|
    ensures PreparedCard(input, prior, before, accounts[i])
         == Ok(PreparedCards(input, prior, before, accounts).value[i])
  {
    hide PreparedCard;
    if i < |accounts| - 1 {
      PreparedElementwise(input, prior, before, accounts[..|accounts| - 1], i);
    }
  }

  lemma {:induction false} PreparedFound(input: MonthInput, prior: seq<PriorCategory>, before: MonthResult,
                                         accounts: seq<CardAccount>, prepared: seq<CardAccount>, id: AccountId)
    requires |accounts| == |prepared|
    requires forall i :: 0 <= i < |accounts| ==> PreparedCard(input, prior, before, accounts[i]) == Ok(prepared[i])
    ensures var a, p := FindAccount(accounts, id), FindAccount(prepared, id);
            && (a.Some? <==> p.Some?)
            && (a.Some? ==>
                  && p.value.calculation.activity == a.value.calculation.activity
                  && p.value.calculation.paymentAssignment == a.value.calculation.paymentAssignment
                  && (var previous := FindCard(before.creditCards, id);
                      p.value.calculation.prior
                      == if previous.Some? then CreditCards.Carried(previous.value.calculation)
                         else a.value.calculation.prior))
  {
    hide RefilledAll, FindCard;
    if accounts != [] && accounts[0].accountId != id {
      PreparedFound(input, prior, before, accounts[1..], prepared[1..], id);
    }
  }

  /** A month's result for an account is the card calculation of the account's input. */
  lemma MonthCard(input: MonthInput, id: AccountId)
    requires CalculateMonth(input).Ok?
    ensures var a, c := FindAccount(input.creditCards, id), FindCard(CalculateMonth(input).value.creditCards, id);
            && (a.Some? <==> c.Some?)
            && (a.Some? ==> CreditCards.CalculateCard(a.value.calculation) == Ok(c.value.calculation))
  {
    hide Rows, Cards;
    var rows := Rows(input.priorCategories, input.categories).value;
    var debt: Money := if input.creditCards == [] then rows.1 else 0;
    CardsReady(Progress(rows.0, OpeningReady(input).value, debt, []), input.creditCards);
    FoundTogether(input.creditCards, CalculateMonth(input).value.creditCards, id);
  }

  /** The events of an account in the months up to and including `n`. */
  function CardEvents(inputs: seq<MonthInput>, id: AccountId, n: nat): seq<CreditCards.CardActivity>
    requires n < |inputs|
    requires forall k :: 0 <= k <= n ==> FindAccount(inputs[k].creditCards, id).Some?
  {
    (if n == 0 then [] else CardEvents(inputs, id, n - 1))
    + FindAccount(inputs[n].creditCards, id).value.calculation.activity
  }

  function CardOpening(input: CreditCards.CardInput): CreditCards.Core {
    var prior := CreditCards.PriorCore(input.prior);
    prior.(payment := prior.payment + input.paymentAssignment)
  }

  lemma PreparedAccount(input: MonthInput, before: MonthResult, id: AccountId)
    requires Prepared(input, before).Ok? && FindAccount(input.creditCards, id).Some?
    requires FindCard(before.creditCards, id).Some?
    ensures var a, p := FindAccount(input.creditCards, id).value, FindAccount(Prepared(input, before).value.creditCards, id);
            && p.Some?
            && p.value.calculation.activity == a.calculation.activity
            && p.value.calculation.paymentAssignment == a.calculation.paymentAssignment
            && p.value.calculation.prior == CreditCards.Carried(FindCard(before.creditCards, id).value.calculation)
  {
    hide PreparedCards, PreparedCard, SumPrior, SumCash;
    var prior, accounts := PriorRows(before.categories), input.creditCards;
    var prepared := PreparedCards(input, prior, before, accounts).value;
    forall i | 0 <= i < |accounts|
      ensures PreparedCard(input, prior, before, accounts[i]) == Ok(prepared[i])
    {
      PreparedElementwise(input, prior, before, accounts, i);
    }
    PreparedFound(input, prior, before, accounts, prepared, id);
  }

  /**
   A card account that appears in every month, with nothing assigned to its payment category after
   the first, ends every month in the state of one run over all its events so far.
   */
  lemma {:induction false} CardThroughMonths(inputs: seq<MonthInput>, id: AccountId, n: nat)
    requires n < |inputs| && Chain(inputs).Ok?
    requires forall k :: 0 <= k <= n ==> FindAccount(inputs[k].creditCards, id).Some?
    requires forall k :: 0 < k <= n ==>
               FindAccount(inputs[k].creditCards, id).value.calculation.paymentAssignment == 0
    ensures var card := FindCard(Chain(inputs).value[n].creditCards, id);
            && card.Some?
            && CreditCards.CoreOf(card.value.calculation)
               == CreditCards.CoreFold(CardOpening(FindAccount(inputs[0].creditCards, id).value.calculation),
                                       CardEvents(inputs, id, n))
  {
    hide CalculateMonth, Chain, Prepared, FindAccount, FindCard, CreditCards.CalculateCard, CreditCards.CoreFold;
    var results := Chain(inputs).value;
    var opening := CardOpening(FindAccount(inputs[0].creditCards, id).value.calculation);
    ChainAt(inputs, n);
    if n == 0 {
      MonthCard(inputs[0], id);
      CreditCards.MonthCore(FindAccount(inputs[0].creditCards, id).value.calculation);
      var events := FindAccount(inputs[0].creditCards, id).value.calculation.activity;
      assert [] + events == events;
    } else {
      CardThroughMonths(inputs, id, n - 1);
      var before := results[n - 1];
      assert results[..n][n - 1] == before;
      var prepared := Prepared(inputs[n], before).value;
      PreparedAccount(inputs[n], before, id);
      MonthCard(prepared, id);
      var input := FindAccount(prepared.creditCards, id).value.calculation;
      CreditCards.MonthCore(input);
      CreditCards.CoreFoldConcat(opening, CardEvents(inputs, id, n - 1), input.activity);
    }
  }
}
