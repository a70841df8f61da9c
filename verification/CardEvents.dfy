/** A card month written out event by event (`src/calculation/credit_card.rs`, lines 99-276). */
module CardEvents {
  import opened Wrappers
  import opened Cents
  import opened Entities
  import opened CreditCards

  /** What a reader adds up over the events of a month. */
  datatype Column =
    | Bought
    | Returned
    | Credited
    | Funded
    | Paid
    | FreeCredit
    | InCategory(id: CategoryId)
    | Unfunded(id: CategoryId)

  /** What one event adds to a column; a category loses what is bought and gains what comes back. */
  function Entry(column: Column, e: CardActivity): int {
    match column
    case Bought => if e.Purchase? then e.amount else 0
    case Returned => if e.Refund? then e.amount else 0
    case Credited => if e.Credit? then e.amount else 0
    case Funded => if e.Purchase? then e.funded else 0
    case Paid => if e.Payment? then e.amount else 0
    case FreeCredit => if e.Credit? && e.category.None? then e.amount else 0
    case InCategory(id) =>
      if e.Purchase? && e.categoryId == id then 0 - e.amount
      else if e.Refund? && e.categoryId == id then e.amount
      else if e.Credit? && e.category == Some(id) then e.amount
      else 0
    case Unfunded(id) => if e.Purchase? && e.categoryId == id then e.amount - e.funded else 0
  }

  function Sum(column: Column, events: seq<CardActivity>): int {
    if events == [] then 0 else Sum(column, events[..|events| - 1]) + Entry(column, events[|events| - 1])
  }

  /** Amounts are not negative, no funded part exceeds its amount, and categories are among the listed ones. */
  predicate WellFormed(e: CardActivity, listed: set<CategoryId>) {
    match e
    case Purchase(id, amount, funded) => 0 <= funded <= amount && id in listed
    case Refund(id, amount, fundedReversal) => 0 <= fundedReversal <= amount && id in listed
    case Payment(amount) => 0 <= amount
    case Credit(amount, category) => 0 <= amount && (category.Some? ==> category.value in listed)
  }

  /** The state after the events, written out from the state before them. */
  ghost predicate WrittenOut(start: CardResult, r: CardResult, events: seq<CardActivity>) {
    && (forall e :: e in events ==> WellFormed(e, start.available.Keys))
    && r.available.Keys == start.available.Keys
    && (forall id :: id in r.available ==> r.available[id] == start.available[id] + Sum(InCategory(id), events))
    && (forall id :: id in r.overspending ==> r.overspending[id] == Sum(Unfunded(id), events))
    && (forall id :: id !in r.overspending ==> Sum(Unfunded(id), events) == 0)
    && r.contributions.purchases == Sum(Bought, events)
    && r.contributions.refunds == Sum(Returned, events)
    && r.contributions.credits == Sum(Credited, events)
    && r.contributions.fundedSpendingMoved == Sum(Funded, events)
    && r.contributions.paymentsMade == Sum(Paid, events)
    && r.contributions.readyToAssignChange == Sum(FreeCredit, events)
    && r.contributions.debtCreated == Sum(Bought, events) - Sum(Funded, events)
    && r.contributions.manualAssignment == start.contributions.manualAssignment
  }

  lemma SumOfOneMore(events: seq<CardActivity>, e: CardActivity)
    ensures forall column :: Sum(column, events + [e]) == Sum(column, events) + Entry(column, e)
  {
    assert (events + [e])[..|events|] == events;
  }

  /** What one event makes of the categories. */
  ghost predicate Moves(r: CardResult, next: CardResult, e: CardActivity) {
    && next.available.Keys == r.available.Keys
    && (forall id :: id in next.available ==> next.available[id] == r.available[id] + Entry(InCategory(id), e))
    && (forall id :: id in next.overspending ==> next.overspending[id] == Overspent(r, id) + Entry(Unfunded(id), e))
    && (forall id :: id !in next.overspending ==> id !in r.overspending && Entry(Unfunded(id), e) == 0)
  }

  lemma PurchaseMoves(r: CardResult, e: CardActivity)
    requires e.Purchase? && Step(r, e).Ok?
    ensures WellFormed(e, r.available.Keys) && Moves(r, Step(r, e).value, e)
  {
  }

  lemma OtherMoves(r: CardResult, e: CardActivity)
    requires !e.Purchase? && Step(r, e).Ok?
    ensures WellFormed(e, r.available.Keys) && Moves(r, Step(r, e).value, e)
  {
  }

  lemma StepCategories(r: CardResult, e: CardActivity)
    requires Step(r, e).Ok?
    ensures WellFormed(e, r.available.Keys) && Moves(r, Step(r, e).value, e)
  {
    hide Step, Moves, WellFormed;
    if e.Purchase? {
      PurchaseMoves(r, e);
    } else {
      OtherMoves(r, e);
    }
  }

  lemma StepColumns(r: CardResult, e: CardActivity)
    requires Step(r, e).Ok?
    ensures var c, next := r.contributions, Step(r, e).value.contributions;
            && next.purchases == c.purchases + Entry(Bought, e)
            && next.refunds == c.refunds + Entry(Returned, e)
            && next.credits == c.credits + Entry(Credited, e)
            && next.fundedSpendingMoved == c.fundedSpendingMoved + Entry(Funded, e)
            && next.paymentsMade == c.paymentsMade + Entry(Paid, e)
            && next.readyToAssignChange == c.readyToAssignChange + Entry(FreeCredit, e)
            && next.debtCreated == c.debtCreated + Entry(Bought, e) - Entry(Funded, e)
            && next.manualAssignment == c.manualAssignment
  {
  }

  lemma {:induction false} StepWrittenOut(start: CardResult, r: CardResult, events: seq<CardActivity>, e: CardActivity)
    requires WrittenOut(start, r, events) && Step(r, e).Ok?
    ensures WrittenOut(start, Step(r, e).value, events + [e])
  {
    SumOfOneMore(events, e);
    StepColumns(r, e);
    StepCategories(r, e);
    hide Step, Sum, Entry, WellFormed;
  }

  lemma {:induction false} FoldWrittenOut(start: CardResult, events: seq<CardActivity>)
    requires Fold(start, events).Ok? && WrittenOut(start, start, [])
    ensures WrittenOut(start, Fold(start, events).value, events)
  {
    hide Step, WrittenOut;
    if events != [] {
      var init, last := events[..|events| - 1], events[|events| - 1];
      FoldWrittenOut(start, init);
      StepWrittenOut(start, Fold(start, init).value, init, last);
      assert events == init + [last];
    }
  }

  predicate IsListed(categories: seq<SpendingCategory>, id: CategoryId) {
    exists i :: 0 <= i < |categories| && categories[i].categoryId == id
  }

  /** The amount a category is listed with, the last one if it is listed again. */
  predicate ListedWith(categories: seq<SpendingCategory>, id: CategoryId, available: Money) {
    exists i :: 0 <= i < |categories| && categories[i] == SpendingCategory(id, available)
                && forall j :: i < j < |categories| ==> categories[j].categoryId != id
  }

  lemma {:induction false} ListedAvailable(categories: seq<SpendingCategory>)
    ensures forall id :: id in AvailableMap(categories) <==> IsListed(categories, id)
    ensures forall id :: id in AvailableMap(categories) ==> ListedWith(categories, id, AvailableMap(categories)[id])
  {
    if categories != [] {
      var n := |categories| - 1;
      var init, m := categories[..n], AvailableMap(categories);
      ListedAvailable(init);
      forall id | id in m
        ensures ListedWith(categories, id, m[id])
      {
        if id == categories[n].categoryId {
          assert categories[n] == SpendingCategory(id, m[id]);
        } else {
          assert id in AvailableMap(init) && AvailableMap(init)[id] == m[id];
          assert ListedWith(init, id, m[id]);
          var i :| 0 <= i < |init| && init[i] == SpendingCategory(id, m[id])
            && forall j :: i < j < |init| ==> init[j].categoryId != id;
          assert categories[i] == init[i];
        }
      }
      forall id
        ensures id in m <==> IsListed(categories, id)
      {
        assert IsListed(categories, id) <==> IsListed(init, id) || id == categories[n].categoryId by {
          if IsListed(init, id) {
            var i :| 0 <= i < |init| && init[i].categoryId == id;
            assert categories[i].categoryId == id;
          }
          if IsListed(categories, id) && id != categories[n].categoryId {
            var i :| 0 <= i < |categories| && categories[i].categoryId == id;
            assert init[i].categoryId == id;
          }
        }
      }
    }
  }

  lemma NothingYet()
    ensures forall column :: Sum(column, []) == 0
  {
  }

  /**
   A successful card month: every event is well formed; each listed category ends with what it was
   listed with plus its own column; each overspending is what was bought without funding; and each
   contribution is the sum of its kind of event.
   */
  lemma {:induction false} MonthWrittenOut(input: CardInput)
    requires CalculateCard(input).Ok?
    ensures var r, events := CalculateCard(input).value, input.activity;
            && (forall e :: e in events ==> WellFormed(e, r.available.Keys))
            && (forall id :: id in r.available <==> IsListed(input.categories, id))
            && (forall id :: id in r.available ==>
                  exists listed: Money :: ListedWith(input.categories, id, listed)
                                          && r.available[id] == listed + Sum(InCategory(id), events))
            && (forall id :: id in r.overspending ==> r.overspending[id] == Sum(Unfunded(id), events))
            && (forall id :: id !in r.overspending ==> Sum(Unfunded(id), events) == 0)
            && r.contributions.purchases == Sum(Bought, events)
            && r.contributions.refunds == Sum(Returned, events)
            && r.contributions.credits == Sum(Credited, events)
            && r.contributions.fundedSpendingMoved == Sum(Funded, events)
            && r.contributions.paymentsMade == Sum(Paid, events)
            && r.contributions.readyToAssignChange == Sum(FreeCredit, events)
            && r.contributions.debtCreated == Sum(Bought, events) - Sum(Funded, events)
            && r.contributions.manualAssignment == input.paymentAssignment
  {
    hide Fold, Sum, AvailableMap, ListedWith, IsListed, WellFormed;
    var start := Start(input).value;
    assert WrittenOut(start, start, []) by {
      NothingYet();
    }
    FoldWrittenOut(start, input.activity);
    ListedAvailable(input.categories);
    var r := CalculateCard(input).value;
    forall id | id in r.available
      ensures exists listed: Money :: ListedWith(input.categories, id, listed)
                                      && r.available[id] == listed + Sum(InCategory(id), input.activity)
    {
      assert ListedWith(input.categories, id, start.available[id]);
    }
  }

  /** What an event must be like for the month to fail with an error other than overflow. */
  predicate Explains(error: CardError, e: CardActivity, listed: set<CategoryId>) {
    match error
    case NegativeMagnitude =>
      e.amount < 0 || (e.Purchase? && e.funded < 0) || (e.Refund? && e.fundedReversal < 0)
    case InvalidFundedPortion =>
      (e.Purchase? && 0 <= e.amount < e.funded) || (e.Refund? && 0 <= e.amount < e.fundedReversal)
    case UnknownCategory =>
      ((e.Purchase? || e.Refund?) && e.categoryId !in listed)
      || (e.Credit? && e.category.Some? && e.category.value !in listed)
    case CardOverflow => true
  }

  lemma StepFailure(r: CardResult, e: CardActivity)
    requires Step(r, e).Err?
    ensures Explains(Step(r, e).error, e, r.available.Keys)
  {
  }

  lemma KeysKept(start: CardResult, r: CardResult, events: seq<CardActivity>)
    requires WrittenOut(start, r, events)
    ensures r.available.Keys == start.available.Keys
  {
    hide Sum;
  }

  lemma {:induction false} FoldFailure(start: CardResult, events: seq<CardActivity>)
    requires Fold(start, events).Err? && WrittenOut(start, start, [])
    ensures Fold(start, events).error != CardOverflow ==>
              exists e :: e in events && Explains(Fold(start, events).error, e, start.available.Keys)
  {
    hide Step, WrittenOut, Explains;
    var init, last := events[..|events| - 1], events[|events| - 1];
    if Fold(start, init).Err? {
      FoldFailure(start, init);
      assert forall e :: e in init ==> e in events;
    } else {
      FoldWrittenOut(start, init);
      KeysKept(start, Fold(start, init).value, init);
      StepFailure(Fold(start, init).value, last);
    }
  }

  /** A month that fails for another reason than overflow has an event that shows the reason. */
  lemma {:induction false} FailureHasReason(input: CardInput)
    requires CalculateCard(input).Err? && CalculateCard(input).error != CardOverflow
    ensures exists e :: e in input.activity
              && Explains(CalculateCard(input).error, e, set c | c in input.categories :: c.categoryId)
  {
    hide Fold, Explains, AvailableMap, Sum;
    var start := Start(input).value;
    assert WrittenOut(start, start, []) by {
      NothingYet();
    }
    FoldFailure(start, input.activity);
    ListedAvailable(input.categories);
    assert start.available.Keys == (set c | c in input.categories :: c.categoryId);
  }
}
