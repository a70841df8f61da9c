/** Chained months, oldest first (`src/calculation/budget_month.rs`, lines 253-317). */
module BudgetChain {
  import opened Wrappers
  import opened Cents
  import opened Entities
  import opened BudgetMonths
  import CreditCards

  // ----- Carrying a month over ----------------------------------------------------------------

  function PriorRows(rows: seq<CategoryResult>): (r: seq<PriorCategory>)
    ensures |r| == |rows|
    ensures forall i :: 0 <= i < |rows| ==> r[i] == PriorCategory(rows[i].id, Positive(rows[i].available))
  {
    seq(|rows|, i requires 0 <= i < |rows| => PriorCategory(rows[i].id, Positive(rows[i].available)))
  }

  function SumPrior(prior: seq<PriorCategory>): Result<Money, CalculationError> {
    if prior == [] then Ok(0)
    else
      var before :- SumPrior(prior[..|prior| - 1]);
      Add(before, prior[|prior| - 1].available)
  }

  function CashOf(row: CategoryResult): Money {
    if row.overspending.CashOverspent? then row.overspending.amount else 0
  }

  function SumCash(rows: seq<CategoryResult>): Result<Money, CalculationError> {
    if rows == [] then Ok(0)
    else
      var before :- SumCash(rows[..|rows| - 1]);
      Add(before, CashOf(rows[|rows| - 1]))
  }

  /** What the first category input with the id was assigned. */
  function GivenTo(categories: seq<CategoryInput>, id: CategoryId): Money {
    if categories == [] then 0 else if categories[0].id == id then categories[0].given else GivenTo(categories[1..], id)
  }

  function Refilled(input: MonthInput, prior: seq<PriorCategory>, s: CreditCards.SpendingCategory)
    : Result<CreditCards.SpendingCategory, CalculationError>
  {
    var available :- Add(CarriedOver(prior, s.categoryId), GivenTo(input.categories, s.categoryId));
    Ok(s.(available := available))
  }

  function RefilledAll(input: MonthInput, prior: seq<PriorCategory>, spending: seq<CreditCards.SpendingCategory>)
    : Result<seq<CreditCards.SpendingCategory>, CalculationError>
  {
    if spending == [] then Ok([])
    else
      var before :- RefilledAll(input, prior, spending[..|spending| - 1]);
      var last :- Refilled(input, prior, spending[|spending| - 1]);
      Ok(before + [last])
  }

  /** The first result of an account, as a search by account finds it. */
  function FindCard(cards: seq<CardAccountResult>, id: AccountId): Option<CardAccountResult> {
    if cards == [] then None else if cards[0].accountId == id then Some(cards[0]) else FindCard(cards[1..], id)
  }

  function PreparedCard(input: MonthInput, prior: seq<PriorCategory>, before: MonthResult, account: CardAccount)
    : Result<CardAccount, CalculationError>
  {
    var categories :- RefilledAll(input, prior, account.calculation.categories);
    var refilled := account.(calculation := account.calculation.(categories := categories));
    match FindCard(before.creditCards, account.accountId)
    case None => Ok(refilled)
    case Some(previous) =>
      Ok(refilled.(calculation := refilled.calculation.(prior := CreditCards.Carried(previous.calculation))))
  }

  function PreparedCards(input: MonthInput, prior: seq<PriorCategory>, before: MonthResult, accounts: seq<CardAccount>)
    : (r: Result<seq<CardAccount>, CalculationError>)
    ensures r.Ok? ==> |r.value| == |accounts|
  {
    if accounts == [] then Ok([])
    else
      var init :- PreparedCards(input, prior, before, accounts[..|accounts| - 1]);
      var last :- PreparedCard(input, prior, before, accounts[|accounts| - 1]);
      Ok(init + [last])
  }

  /** A month's input with everything that the preceding result decides. */
  function Prepared(input: MonthInput, before: MonthResult): Result<MonthInput, CalculationError> {
    var prior := PriorRows(before.categories);
    var rollover :- SumPrior(prior);
    var cash :- SumCash(before.categories);
    var cards :- PreparedCards(input, prior, before, input.creditCards);
    Ok(input.(priorReadyToAssign := before.readyToAssign, priorCategories := prior, positiveRollover := rollover,
              priorCashOverspending := cash, creditCards := cards))
  }

  function ReadyInput(before: seq<MonthResult>, input: MonthInput): Result<MonthInput, CalculationError> {
    if before == [] then Ok(input) else Prepared(input, before[|before| - 1])
  }

  /** The results of a list of months in the order given. */
  function Chain(inputs: seq<MonthInput>): (r: Result<seq<MonthResult>, CalculationError>)
    ensures r.Ok? ==> |r.value| == |inputs|
  {
    if inputs == [] then Ok([])
    else
      var before :- Chain(inputs[..|inputs| - 1]);
      var input :- ReadyInput(before, inputs[|inputs| - 1]);
      var result :- CalculateMonth(input);
      Ok(before + [result])
  }

  // ----- Sorting by month ---------------------------------------------------------------------

  /** Stable insertion, as the library sort by month orders the inputs. */
  function InsertByMonth(sorted: seq<MonthInput>, x: MonthInput): seq<MonthInput> {
    if sorted == [] || sorted[|sorted| - 1].month <= x.month then sorted + [x]
    else InsertByMonth(sorted[..|sorted| - 1], x) + [sorted[|sorted| - 1]]
  }

  function SortByMonth(inputs: seq<MonthInput>): seq<MonthInput> {
    if inputs == [] then [] else InsertByMonth(SortByMonth(inputs[..|inputs| - 1]), inputs[|inputs| - 1])
  }

  function Chronological(inputs: seq<MonthInput>): Result<seq<MonthResult>, CalculationError> {
    Chain(SortByMonth(inputs))
  }

  // ----- The loops ----------------------------------------------------------------------------

  lemma {:induction false} FailedRefill(input: MonthInput, prior: seq<PriorCategory>,
                                        spending: seq<CreditCards.SpendingCategory>, at: nat)
    requires at <= |spending| && RefilledAll(input, prior, spending[..at]).Err?
    ensures RefilledAll(input, prior, spending).Err?
    decreases |spending|
  {
    if at < |spending| {
      assert spending[..|spending| - 1][..at] == spending[..at];
      FailedRefill(input, prior, spending[..|spending| - 1], at);
    } else {
      assert spending[..at] == spending;
    }
  }

  lemma {:induction false} FailedPreparation(input: MonthInput, prior: seq<PriorCategory>, before: MonthResult,
                                             accounts: seq<CardAccount>, at: nat)
    requires at <= |accounts| && PreparedCards(input, prior, before, accounts[..at]).Err?
    ensures PreparedCards(input, prior, before, accounts).Err?
    decreases |accounts|
  {
    if at < |accounts| {
      assert accounts[..|accounts| - 1][..at] == accounts[..at];
      FailedPreparation(input, prior, before, accounts[..|accounts| - 1], at);
    } else {
      assert accounts[..at] == accounts;
    }
  }

  lemma {:induction false} FailedChain(inputs: seq<MonthInput>, at: nat)
    requires at <= |inputs| && Chain(inputs[..at]).Err?
    ensures Chain(inputs).Err?
    decreases |inputs|
  {
    if at < |inputs| {
      assert inputs[..|inputs| - 1][..at] == inputs[..at];
      FailedChain(inputs[..|inputs| - 1], at);
    } else {
      assert inputs[..at] == inputs;
    }
  }

  /** All failures are the one overflow, so failing at all settles the result. */
  lemma SameFailure<T>(a: Result<T, CalculationError>, b: Result<T, CalculationError>)
    requires a.Err? && b.Err?
    ensures a == b
  {
    OnlyOverflow(a.error);
    OnlyOverflow(b.error);
  }

  method PrepareCardLoop(input: MonthInput, prior: seq<PriorCategory>, before: MonthResult)
    returns (r: Result<seq<CardAccount>, CalculationError>)
    ensures r == PreparedCards(input, prior, before, input.creditCards)
  {
    hide Refilled, FindCard;
    var accounts := input.creditCards;
    var cards: seq<CardAccount> := [];
    for i := 0 to |accounts|
      invariant PreparedCards(input, prior, before, accounts[..i]) == Ok(cards)
    {
      assert accounts[..i + 1][..i] == accounts[..i];
      if PreparedCards(input, prior, before, accounts[..i + 1]).Err? {
        FailedPreparation(input, prior, before, accounts, i + 1);
      }
      var card := accounts[i];
      var spending := card.calculation.categories;
      var refilled: seq<CreditCards.SpendingCategory> := [];
      for k := 0 to |spending|
        invariant RefilledAll(input, prior, spending[..k]) == Ok(refilled)
      {
        assert spending[..k + 1][..k] == spending[..k];
        if RefilledAll(input, prior, spending[..k + 1]).Err? {
          FailedRefill(input, prior, spending, k + 1);
        }
        var s := Refilled(input, prior, spending[k]);
        if s.Err? {
          assert PreparedCard(input, prior, before, card).Err?;
          SameFailure(Err(s.error), PreparedCards(input, prior, before, accounts));
          return Err(s.error);
        }
        refilled := refilled + [s.value];
      }
      assert spending[..|spending|] == spending;
      card := card.(calculation := card.calculation.(categories := refilled));
      var previous := FindCard(before.creditCards, card.accountId);
      if previous.Some? {
        card := card.(calculation := card.calculation.(prior := CreditCards.Carried(previous.value.calculation)));
      }
      cards := cards + [card];
    }
    assert accounts[..|accounts|] == accounts;
    return Ok(cards);
  }

  method CalculateChronological(inputs: seq<MonthInput>) returns (r: Result<seq<MonthResult>, CalculationError>)
    ensures r == Chronological(inputs)
  {
    hide CalculateMonth, SumPrior, SumCash, PreparedCards, PriorRows;
    var sorted := SortByMonth(inputs);
    var output: seq<MonthResult> := [];
    for i := 0 to |sorted|
      invariant Chain(sorted[..i]) == Ok(output)
    {
      assert sorted[..i + 1][..i] == sorted[..i];
      if Chain(sorted[..i + 1]).Err? {
        FailedChain(sorted, i + 1);
        SameFailure(Err(CalculationOverflow), Chain(sorted));
      }
      var input := sorted[i];
      if output != [] {
        var before := output[|output| - 1];
        var prior := PriorRows(before.categories);
        input := input.(priorReadyToAssign := before.readyToAssign, priorCategories := prior);
        var rollover := SumPrior(prior);
        var cash := SumCash(before.categories);
        if rollover.Err? || cash.Err? {
          return Err(CalculationOverflow);
        }
        var cards := PrepareCardLoop(sorted[i], prior, before);
        if cards.Err? {
          return Err(CalculationOverflow);
        }
        input := input.(positiveRollover := rollover.value, priorCashOverspending := cash.value, creditCards := cards.value);
        assert Prepared(sorted[i], before) == Ok(input);
      }
      assert ReadyInput(output, sorted[i]) == Ok(input);
      var result := Calculate(input);
      if result.Err? {
        return Err(CalculationOverflow);
      }
      output := output + [result.value];
    }
    assert sorted[..|sorted|] == sorted;
    return Ok(output);
  }

  // ----- Earlier months do not depend on later ones -------------------------------------------

  lemma {:induction false} ChainPrefix(inputs: seq<MonthInput>, k: nat)
    requires k <= |inputs| && Chain(inputs).Ok?
    ensures Chain(inputs[..k]) == Ok(Chain(inputs).value[..k])
    decreases |inputs|
  {
    hide CalculateMonth, ReadyInput;
    if k == |inputs| {
      assert inputs[..k] == inputs;
      assert Chain(inputs).value[..k] == Chain(inputs).value;
    } else {
      var init := inputs[..|inputs| - 1];
      ChainPrefix(init, k);
      assert init[..k] == inputs[..k];
      assert Chain(inputs).value[..k] == Chain(init).value[..k];
    }
  }

  lemma MonthKept(input: MonthInput)
    ensures CalculateMonth(input).Ok? ==> CalculateMonth(input).value.month == input.month
  {
    hide Rows, Cards;
  }

  lemma ReadyMonth(before: seq<MonthResult>, input: MonthInput)
    ensures ReadyInput(before, input).Ok? ==> ReadyInput(before, input).value.month == input.month
  {
  }

  /** The result of month `k` is the calculation of its prepared input. */
  lemma {:induction false} ChainAt(inputs: seq<MonthInput>, k: nat)
    requires k < |inputs| && Chain(inputs).Ok?
    ensures var results := Chain(inputs).value;
            var input := ReadyInput(results[..k], inputs[k]);
            input.Ok? && CalculateMonth(input.value) == Ok(results[k]) && results[k].month == inputs[k].month
  {
    hide CalculateMonth, ReadyInput, Prepared;
    ChainPrefix(inputs, k + 1);
    ChainPrefix(inputs, k);
    assert inputs[..k + 1][..k] == inputs[..k];
    assert Chain(inputs).value[..k + 1][k] == Chain(inputs).value[k];
    MonthKept(ReadyInput(Chain(inputs).value[..k], inputs[k]).value);
    ReadyMonth(Chain(inputs).value[..k], inputs[k]);
  }

  predicate DistinctMonths(inputs: seq<MonthInput>) {
    forall i, j :: 0 <= i < j < |inputs| ==> inputs[i].month != inputs[j].month
  }

  predicate Ascending(inputs: seq<MonthInput>) {
    forall i, j :: 0 <= i < j < |inputs| ==> inputs[i].month <= inputs[j].month
  }

  /** The inputs of one month, in the order given. */
  function OfMonth(inputs: seq<MonthInput>, m: Month): seq<MonthInput> {
    if inputs == [] then []
    else OfMonth(inputs[..|inputs| - 1], m) + if inputs[|inputs| - 1].month == m then [inputs[|inputs| - 1]] else []
  }

  lemma OfMonthAppend(inputs: seq<MonthInput>, x: MonthInput, m: Month)
    ensures OfMonth(inputs + [x], m) == if x.month == m then OfMonth(inputs, m) + [x] else OfMonth(inputs, m)
  {
    assert (inputs + [x])[..|inputs|] == inputs;
  }

  lemma {:induction false} InsertKeepsOrder(sorted: seq<MonthInput>, x: MonthInput, m: Month)
    ensures OfMonth(InsertByMonth(sorted, x), m) == OfMonth(sorted + [x], m)
  {
    hide OfMonth;
    OfMonthAppend(sorted, x, m);
    if sorted != [] && sorted[|sorted| - 1].month > x.month {
      var init, last := sorted[..|sorted| - 1], sorted[|sorted| - 1];
      assert sorted == init + [last];
      InsertKeepsOrder(init, x, m);
      OfMonthAppend(init, x, m);
      OfMonthAppend(init, last, m);
      OfMonthAppend(InsertByMonth(init, x), last, m);
    }
  }

  lemma SortOfAppend(inputs: seq<MonthInput>, x: MonthInput)
    ensures SortByMonth(inputs + [x]) == InsertByMonth(SortByMonth(inputs), x)
  {
    assert (inputs + [x])[..|inputs|] == inputs;
  }

  /** Sorting keeps the order of inputs of the same month. */
  lemma {:induction false} SortKeepsOrder(inputs: seq<MonthInput>, m: Month)
    ensures OfMonth(SortByMonth(inputs), m) == OfMonth(inputs, m)
  {
    if inputs != [] {
      hide InsertByMonth, SortByMonth, OfMonth;
      var init, last := inputs[..|inputs| - 1], inputs[|inputs| - 1];
      SortKeepsOrder(init, m);
      SortOfAppend(init, last);
      InsertKeepsOrder(SortByMonth(init), last, m);
      OfMonthAppend(SortByMonth(init), last, m);
      OfMonthAppend(init, last, m);
      assert inputs == init + [last];
    }
  }

  predicate StrictlyAscending(inputs: seq<MonthInput>) {
    forall i, j :: 0 <= i < j < |inputs| ==> inputs[i].month < inputs[j].month
  }

  lemma {:induction false} InsertSorts(sorted: seq<MonthInput>, x: MonthInput)
    requires Ascending(sorted)
    ensures var r := InsertByMonth(sorted, x);
            Ascending(r) && |r| == |sorted| + 1 && forall y :: y in r <==> y in sorted || y == x
  {
    if sorted != [] && sorted[|sorted| - 1].month > x.month {
      var init, last := sorted[..|sorted| - 1], sorted[|sorted| - 1];
      InsertSorts(init, x);
      var r := InsertByMonth(init, x);
      assert sorted == init + [last];
      forall i | 0 <= i < |r|
        ensures r[i].month <= last.month
      {
        assert r[i] == x || r[i] in init;
      }
    }
  }

  lemma {:induction false} InsertStrictly(sorted: seq<MonthInput>, x: MonthInput)
    requires StrictlyAscending(sorted) && forall y :: y in sorted ==> y.month != x.month
    ensures StrictlyAscending(InsertByMonth(sorted, x))
  {
    if sorted != [] && sorted[|sorted| - 1].month > x.month {
      var init, last := sorted[..|sorted| - 1], sorted[|sorted| - 1];
      InsertStrictly(init, x);
      InsertSorts(init, x);
      var r := InsertByMonth(init, x);
      forall i | 0 <= i < |r|
        ensures r[i].month < last.month
      {
        assert r[i] == x || r[i] in init;
      }
    }
  }

  lemma {:induction false} SortSorts(inputs: seq<MonthInput>)
    ensures var r := SortByMonth(inputs);
            && Ascending(r) && |r| == |inputs|
            && (forall y :: y in r <==> y in inputs)
            && (DistinctMonths(inputs) ==> StrictlyAscending(r))
  {
    hide InsertByMonth;
    if inputs != [] {
      var init, last := inputs[..|inputs| - 1], inputs[|inputs| - 1];
      SortSorts(init);
      InsertSorts(SortByMonth(init), last);
      if DistinctMonths(inputs) {
        InsertStrictly(SortByMonth(init), last);
      }
      assert inputs == init + [last];
    }
  }

  lemma {:induction false} SortedIsUnique(a: seq<MonthInput>, b: seq<MonthInput>)
    requires StrictlyAscending(a) && StrictlyAscending(b) && |a| == |b| && forall x :: x in a <==> x in b
    ensures a == b
    decreases |a|
  {
    if a != [] {
      var n, k := |a| - 1, |b| - 1;
      assert a[n] in b && b[k] in a;
      assert a[n] == b[k];
      forall x ensures x in a[..n] <==> x in b[..k] {
        assert x in a[..n] <==> x in a && x != a[n];
        assert x in b[..k] <==> x in b && x != b[k];
      }
      SortedIsUnique(a[..n], b[..k]);
    }
  }

  /** For distinct months the sorted list does not depend on the order of the inputs. */
  lemma SortIgnoresOrder(a: seq<MonthInput>, b: seq<MonthInput>)
    requires DistinctMonths(a) && DistinctMonths(b) && multiset(a) == multiset(b)
    ensures SortByMonth(a) == SortByMonth(b)
  {
    hide SortByMonth;
    SortSorts(a);
    SortSorts(b);
    forall x ensures x in SortByMonth(a) <==> x in SortByMonth(b) {
      assert x in a <==> x in multiset(a);
      assert x in b <==> x in multiset(b);
    }
    assert |a| == |multiset(a)| == |multiset(b)| == |b|;
    SortedIsUnique(SortByMonth(a), SortByMonth(b));
  }

  /** For distinct months the result does not depend on the order of the inputs. */
  lemma OrderDoesNotMatter(a: seq<MonthInput>, b: seq<MonthInput>)
    requires DistinctMonths(a) && DistinctMonths(b) && multiset(a) == multiset(b)
    ensures Chronological(a) == Chronological(b)
  {
    hide Chain, SortByMonth;
    SortIgnoresOrder(a, b);
  }

  /** The inputs before a month, in the order given. */
  function InputsBefore(inputs: seq<MonthInput>, m: Month): seq<MonthInput> {
    if inputs == [] then []
    else
      InputsBefore(inputs[..|inputs| - 1], m)
      + if inputs[|inputs| - 1].month < m then [inputs[|inputs| - 1]] else []
  }

  lemma {:induction false} AllBefore(inputs: seq<MonthInput>, m: Month)
    requires forall i :: 0 <= i < |inputs| ==> inputs[i].month < m
    ensures InputsBefore(inputs, m) == inputs
  {
    if inputs != [] {
      AllBefore(inputs[..|inputs| - 1], m);
    }
  }

  lemma BeforeOfAppend(inputs: seq<MonthInput>, x: MonthInput, m: Month)
    ensures InputsBefore(inputs + [x], m)
         == if x.month < m then InputsBefore(inputs, m) + [x] else InputsBefore(inputs, m)
  {
    assert (inputs + [x])[..|inputs|] == inputs;
  }

  lemma {:induction false} BeforeOfInsert(sorted: seq<MonthInput>, x: MonthInput, m: Month)
    requires Ascending(sorted)
    ensures InputsBefore(InsertByMonth(sorted, x), m)
         == if x.month < m then InsertByMonth(InputsBefore(sorted, m), x) else InputsBefore(sorted, m)
  {
    hide InputsBefore;
    if sorted == [] || sorted[|sorted| - 1].month <= x.month {
      BeforeOfAppend(sorted, x, m);
      if x.month < m {
        AllBefore(sorted, m);
      }
    } else {
      var init, last := sorted[..|sorted| - 1], sorted[|sorted| - 1];
      assert sorted == init + [last];
      BeforeOfInsert(init, x, m);
      BeforeOfAppend(InsertByMonth(init, x), last, m);
      BeforeOfAppend(init, last, m);
      if last.month < m {
        AllBefore(sorted, m);
        AllBefore(init, m);
      }
    }
  }

  lemma {:induction false} BeforeOfSort(inputs: seq<MonthInput>, m: Month)
    ensures InputsBefore(SortByMonth(inputs), m) == SortByMonth(InputsBefore(inputs, m))
  {
    if inputs != [] {
      hide InputsBefore, SortByMonth;
      var init, last := inputs[..|inputs| - 1], inputs[|inputs| - 1];
      assert inputs == init + [last];
      BeforeOfSort(init, m);
      SortSorts(init);
      BeforeOfInsert(SortByMonth(init), last, m);
      BeforeOfAppend(init, last, m);
      SortOfAppend(init, last);
      SortOfAppend(InputsBefore(init, m), last);
    }
  }

  lemma {:induction false} BeforeIsPrefix(sorted: seq<MonthInput>, m: Month)
    requires Ascending(sorted)
    ensures var k := |InputsBefore(sorted, m)|;
            && k <= |sorted| && InputsBefore(sorted, m) == sorted[..k]
            && (forall i :: 0 <= i < k ==> sorted[i].month < m)
            && (forall i :: k <= i < |sorted| ==> m <= sorted[i].month)
  {
    if sorted == [] {
      assert InputsBefore(sorted, m) == [];
    } else {
      hide InputsBefore;
      var init, last := sorted[..|sorted| - 1], sorted[|sorted| - 1];
      if last.month < m {
        assert forall i :: 0 <= i < |sorted| ==> sorted[i].month <= last.month;
        AllBefore(sorted, m);
        assert sorted[..|sorted|] == sorted;
      } else {
        BeforeIsPrefix(init, m);
        BeforeOfAppend(init, last, m);
        assert sorted == init + [last];
        var k := |InputsBefore(init, m)|;
        assert sorted[..k] == init[..k];
        assert forall i :: 0 <= i < |init| ==> sorted[i] == init[i];
      }
    }
  }

  lemma ChainMonths(inputs: seq<MonthInput>)
    requires Chain(inputs).Ok?
    ensures forall i :: 0 <= i < |inputs| ==> Chain(inputs).value[i].month == inputs[i].month
  {
    hide Chain;
    forall i | 0 <= i < |inputs|
      ensures Chain(inputs).value[i].month == inputs[i].month
    {
      ChainAt(inputs, i);
    }
  }

  /** The results before a month are those of the inputs before it alone. */
  lemma {:induction false} ResultsBeforeMonth(inputs: seq<MonthInput>, m: Month)
    requires Chronological(inputs).Ok?
    ensures var results := Chronological(inputs).value;
            var early := Chronological(InputsBefore(inputs, m));
            && early.Ok? && early.value <= results
            && (forall i :: 0 <= i < |results| ==> (results[i].month < m <==> i < |early.value|))
  {
    hide Chain, SortByMonth, InputsBefore, Ascending;
    var sorted := SortByMonth(inputs);
    SortSorts(inputs);
    BeforeOfSort(inputs, m);
    BeforeIsPrefix(sorted, m);
    ChainPrefix(sorted, |InputsBefore(sorted, m)|);
    ChainMonths(sorted);
  }

  /** The result of a month in a list of results. */
  ghost predicate ResultOf(results: seq<MonthResult>, m: Month, r: MonthResult) {
    r in results && r.month == m
  }

  lemma SameEarlyResult(results: seq<MonthResult>, early: seq<MonthResult>, m: Month, earlier: Month, r: MonthResult)
    requires early <= results && earlier < m
    requires forall i :: 0 <= i < |results| ==> (results[i].month < m <==> i < |early|)
    ensures ResultOf(results, earlier, r) <==> ResultOf(early, earlier, r)
  {
    if ResultOf(results, earlier, r) {
      var i :| 0 <= i < |results| && results[i] == r;
      assert early[i] == r;
    }
    if ResultOf(early, earlier, r) {
      var i :| 0 <= i < |early| && early[i] == r;
      assert results[i] == r;
    }
  }

  lemma {:induction false} DistinctBefore(inputs: seq<MonthInput>, m: Month)
    requires DistinctMonths(inputs)
    ensures DistinctMonths(InputsBefore(inputs, m))
    ensures forall x :: x in InputsBefore(inputs, m) ==> x in inputs
  {
    if inputs != [] {
      var init, last := inputs[..|inputs| - 1], inputs[|inputs| - 1];
      DistinctBefore(init, m);
      var kept := InputsBefore(init, m);
      forall i | 0 <= i < |kept| ensures kept[i].month != last.month {
        assert kept[i] in init;
      }
    }
  }

  lemma {:induction false} BeforeEarlier(inputs: seq<MonthInput>, m: Month, earlier: Month)
    requires earlier <= m
    ensures InputsBefore(InputsBefore(inputs, m), earlier) == InputsBefore(inputs, earlier)
  {
    if inputs != [] {
      hide InputsBefore;
      var init, last := inputs[..|inputs| - 1], inputs[|inputs| - 1];
      assert inputs == init + [last];
      BeforeEarlier(init, m, earlier);
      BeforeOfAppend(init, last, m);
      BeforeOfAppend(init, last, earlier);
      BeforeOfAppend(InputsBefore(init, m), last, earlier);
    }
  }

  lemma {:induction false} CountBefore(inputs: seq<MonthInput>, m: Month, x: MonthInput)
    ensures multiset(InputsBefore(inputs, m))[x] == if x.month < m then multiset(inputs)[x] else 0
  {
    if inputs != [] {
      var init, last := inputs[..|inputs| - 1], inputs[|inputs| - 1];
      assert inputs == init + [last];
      CountBefore(init, m, x);
    }
  }

  lemma SameInputsBefore(a: seq<MonthInput>, b: seq<MonthInput>, m: Month)
    requires multiset(a) == multiset(b)
    ensures multiset(InputsBefore(a, m)) == multiset(InputsBefore(b, m))
  {
    forall x
      ensures multiset(InputsBefore(a, m))[x] == multiset(InputsBefore(b, m))[x]
    {
      CountBefore(a, m, x);
      CountBefore(b, m, x);
    }
  }

  lemma {:induction false} SameSortedBefore(a: seq<MonthInput>, b: seq<MonthInput>, m: Month, earlier: Month)
    requires DistinctMonths(a) && DistinctMonths(b) && earlier <= m
    requires multiset(InputsBefore(a, m)) == multiset(InputsBefore(b, m))
    ensures SortByMonth(InputsBefore(a, earlier)) == SortByMonth(InputsBefore(b, earlier))
  {
    hide SortByMonth, InputsBefore, DistinctMonths;
    SameInputsBefore(InputsBefore(a, m), InputsBefore(b, m), earlier);
    BeforeEarlier(a, m, earlier);
    BeforeEarlier(b, m, earlier);
    DistinctBefore(a, earlier);
    DistinctBefore(b, earlier);
    SortIgnoresOrder(InputsBefore(a, earlier), InputsBefore(b, earlier));
  }

  /**
   Changing inputs from a month on, by replacing, adding or dropping months, changes no calculation
   up to an earlier month, however either list is ordered and whether or not a later month overflows.
   */
  lemma {:induction false} EarlierCalculationStays(a: seq<MonthInput>, b: seq<MonthInput>, m: Month, earlier: Month)
    requires DistinctMonths(a) && DistinctMonths(b) && earlier <= m
    requires multiset(InputsBefore(a, m)) == multiset(InputsBefore(b, m))
    ensures Chronological(InputsBefore(a, earlier)) == Chronological(InputsBefore(b, earlier))
  {
    hide Chain, SortByMonth, InputsBefore, DistinctMonths;
    SameSortedBefore(a, b, m, earlier);
  }

  /** A month's result in a calculation of all months is its result in the calculation up to that month. */
  lemma {:induction false} ResultUpToMonth(inputs: seq<MonthInput>, month: Month, r: MonthResult)
    requires Chronological(inputs).Ok?
    ensures var upTo := Chronological(InputsBefore(inputs, month + 1));
            upTo.Ok? && (ResultOf(Chronological(inputs).value, month, r) <==> ResultOf(upTo.value, month, r))
  {
    hide Chronological, InputsBefore, ResultOf;
    ResultsBeforeMonth(inputs, month + 1);
    SameEarlyResult(Chronological(inputs).value, Chronological(InputsBefore(inputs, month + 1)).value, month + 1, month, r);
  }

  /** When both lists can be calculated, they have the same results before the month. */
  lemma {:induction false} EarlierResultsStay(a: seq<MonthInput>, b: seq<MonthInput>, m: Month, earlier: Month, r: MonthResult)
    requires DistinctMonths(a) && DistinctMonths(b)
    requires multiset(InputsBefore(a, m)) == multiset(InputsBefore(b, m))
    requires Chronological(a).Ok? && Chronological(b).Ok? && earlier < m
    ensures ResultOf(Chronological(a).value, earlier, r) <==> ResultOf(Chronological(b).value, earlier, r)
  {
    hide Chronological, InputsBefore, ResultOf, DistinctMonths;
    EarlierCalculationStays(a, b, m, earlier + 1);
    ResultUpToMonth(a, earlier, r);
    ResultUpToMonth(b, earlier, r);
  }
}
