/** The view of a month as the query builds and the cache keeps it (`src/storage/query_store.rs`, lines 1188-1388). */
module MonthViews {
  import opened Wrappers
  import opened Cents
  import opened BudgetMonths
  import opened BudgetChain
  import opened MonthCache

  /** What a month and all later ones were assigned. */
  function AssignedFrom(inputs: seq<MonthInput>, m: Month): int {
    if inputs == [] then 0
    else
      AssignedFrom(inputs[..|inputs| - 1], m)
      + if m <= inputs[|inputs| - 1].month then inputs[|inputs| - 1].assignments else 0
  }

  /**
   The calculation of the months up to one, the last charged with all assignments of later months;
   `None` is any of the query's errors.
   */
  function MonthView(inputs: seq<MonthInput>, month: Month): Option<MonthResult> {
    var upTo := SortByMonth(InputsBefore(inputs, month + 1));
    var later := AssignedFrom(inputs, month + 1);
    if upTo == [] || !(MIN_CENTS <= later <= MAX_CENTS) then None
    else
      var results := Chain(upTo[..|upTo| - 1] + [upTo[|upTo| - 1].(futureAssignments := later)]);
      if results.Err? then None else Some(results.value[|upTo| - 1])
  }

  // ----- What the later assignments change ----------------------------------------------------

  /** The results differ in Ready to Assign at most, which is lower by `less`. */
  predicate ReadyLess(a: MonthResult, b: MonthResult, less: int) {
    b.readyToAssign == a.readyToAssign - less && b.(readyToAssign := 0) == a.(readyToAssign := 0)
  }

  lemma {:induction false} CardsFromOtherReady(p: Progress, q: Progress, accounts: seq<CardAccount>)
    requires q == p.(ready := q.ready) && Cards(p, accounts).Ok? && Cards(q, accounts).Ok?
    ensures var a, b := Cards(p, accounts).value, Cards(q, accounts).value;
            b == a.(ready := b.ready) && b.ready - a.ready == q.ready - p.ready
  {
    hide CreditCards.CalculateCard, WithPayment, Reclassified;
    if accounts != [] {
      CardsFromOtherReady(p, q, accounts[..|accounts| - 1]);
    }
  }

  lemma {:induction false} MonthCharged(input: MonthInput, former: Money, later: Money)
    requires CalculateMonth(input.(futureAssignments := former)).Ok?
    requires CalculateMonth(input.(futureAssignments := later)).Ok?
    ensures ReadyLess(CalculateMonth(input.(futureAssignments := former)).value,
                      CalculateMonth(input.(futureAssignments := later)).value, later - former)
  {
    hide Rows, Cards;
    var rows := Rows(input.priorCategories, input.categories).value;
    var debt: Money := if input.creditCards == [] then rows.1 else 0;
    CardsFromOtherReady(Progress(rows.0, OpeningReady(input.(futureAssignments := former)).value, debt, []),
                        Progress(rows.0, OpeningReady(input.(futureAssignments := later)).value, debt, []),
                        input.creditCards);
  }

  lemma {:induction false} RefillIgnoresCharge(input: MonthInput, later: Money, prior: seq<PriorCategory>,
                                               spending: seq<CreditCards.SpendingCategory>)
    ensures RefilledAll(input.(futureAssignments := later), prior, spending) == RefilledAll(input, prior, spending)
  {
    if spending != [] {
      RefillIgnoresCharge(input, later, prior, spending[..|spending| - 1]);
    }
  }

  lemma {:induction false} CardsIgnoreCharge(input: MonthInput, later: Money, prior: seq<PriorCategory>,
                                             before: MonthResult, accounts: seq<CardAccount>)
    ensures PreparedCards(input.(futureAssignments := later), prior, before, accounts)
         == PreparedCards(input, prior, before, accounts)
  {
    hide RefilledAll;
    if accounts != [] {
      CardsIgnoreCharge(input, later, prior, before, accounts[..|accounts| - 1]);
      RefillIgnoresCharge(input, later, prior, accounts[|accounts| - 1].calculation.categories);
    }
  }

  lemma ReadyCharged(before: seq<MonthResult>, input: MonthInput, later: Money)
    ensures ReadyInput(before, input).Ok? <==> ReadyInput(before, input.(futureAssignments := later)).Ok?
    ensures ReadyInput(before, input).Ok? ==>
              ReadyInput(before, input.(futureAssignments := later)).value
              == ReadyInput(before, input).value.(futureAssignments := later)
  {
    hide SumPrior, SumCash, PriorRows;
    if before != [] {
      CardsIgnoreCharge(input, later, PriorRows(before[|before| - 1].categories), before[|before| - 1], input.creditCards);
    }
  }

  lemma {:induction false} ChainCharged(init: seq<MonthInput>, last: MonthInput, former: Money, later: Money)
    requires var a, b := init + [last.(futureAssignments := former)], init + [last.(futureAssignments := later)];
             Chain(a).Ok? && Chain(b).Ok?
    ensures var a, b := init + [last.(futureAssignments := former)], init + [last.(futureAssignments := later)];
            ReadyLess(Chain(a).value[|init|], Chain(b).value[|init|], later - former)
  {
    hide CalculateMonth, ReadyInput;
    var a, b := init + [last.(futureAssignments := former)], init + [last.(futureAssignments := later)];
    assert a[..|init|] == init && b[..|init|] == init;
    var before := Chain(init).value;
    ReadyCharged(before, last, former);
    ReadyCharged(before, last, later);
    MonthCharged(ReadyInput(before, last).value, former, later);
  }

  // ----- The sums -----------------------------------------------------------------------------

  lemma {:induction false} AssignedOfInsert(sorted: seq<MonthInput>, x: MonthInput, m: Month)
    ensures AssignedFrom(InsertByMonth(sorted, x), m) == AssignedFrom(sorted + [x], m)
  {
    assert (sorted + [x])[..|sorted|] == sorted;
    if sorted != [] && sorted[|sorted| - 1].month > x.month {
      var init, last := sorted[..|sorted| - 1], sorted[|sorted| - 1];
      AssignedOfInsert(init, x, m);
      assert (init + [x])[..|init|] == init;
      var r := InsertByMonth(init, x);
      assert (r + [last])[..|r|] == r;
    }
  }

  lemma {:induction false} AssignedOfSort(inputs: seq<MonthInput>, m: Month)
    ensures AssignedFrom(SortByMonth(inputs), m) == AssignedFrom(inputs, m)
  {
    if inputs != [] {
      hide InsertByMonth;
      var init, last := inputs[..|inputs| - 1], inputs[|inputs| - 1];
      AssignedOfSort(init, m);
      AssignedOfInsert(SortByMonth(init), last, m);
      assert (SortByMonth(init) + [last])[..|SortByMonth(init)|] == SortByMonth(init);
    }
  }

  lemma {:induction false} AssignedSplits(inputs: seq<MonthInput>, from: Month, m: Month)
    requires from <= m
    ensures AssignedFrom(inputs, from) == AssignedFrom(InputsBefore(inputs, m), from) + AssignedFrom(inputs, m)
  {
    if inputs != [] {
      var init, last := inputs[..|inputs| - 1], inputs[|inputs| - 1];
      AssignedSplits(init, from, m);
      var kept := InputsBefore(init, m);
      assert (kept + [last])[..|kept|] == kept;
      assert kept + [] == kept;
    }
  }

  /** When the months before `m` agree, later sums differ by what the months from `m` on differ by. */
  lemma {:induction false} LaterAssignmentsDiffer(a: seq<MonthInput>, b: seq<MonthInput>, m: Month, from: Month)
    requires DistinctMonths(a) && DistinctMonths(b) && from <= m
    requires multiset(InputsBefore(a, m)) == multiset(InputsBefore(b, m))
    ensures AssignedFrom(b, from) - AssignedFrom(a, from) == AssignedFrom(b, m) - AssignedFrom(a, m)
  {
    hide AssignedFrom, InputsBefore, SortByMonth, DistinctMonths;
    AssignedSplits(a, from, m);
    AssignedSplits(b, from, m);
    SameSortedBefore(a, b, m, m);
    AssignedOfSort(InputsBefore(a, m), from);
    AssignedOfSort(InputsBefore(b, m), from);
  }

  // ----- Kept views ---------------------------------------------------------------------------

  /**
   When inputs change from a month on, the view of an earlier month stays the same if and only if the
   months from there on were assigned as much as before; otherwise its Ready to Assign moves against
   the difference and nothing else does.
   */
  lemma {:induction false} EarlierViewExactly(before: seq<MonthInput>, after: seq<MonthInput>, m: Month, earlier: Month)
    requires DistinctMonths(before) && DistinctMonths(after) && earlier < m
    requires multiset(InputsBefore(before, m)) == multiset(InputsBefore(after, m))
    requires MonthView(before, earlier).Some?
    ensures MonthView(after, earlier) == MonthView(before, earlier)
            <==> AssignedFrom(after, m) == AssignedFrom(before, m)
    ensures MonthView(after, earlier).Some? ==>
              ReadyLess(MonthView(before, earlier).value, MonthView(after, earlier).value,
                        AssignedFrom(after, m) - AssignedFrom(before, m))
  {
    hide Chain, AssignedFrom, InputsBefore, SortByMonth, DistinctMonths;
    SameSortedBefore(before, after, m, earlier + 1);
    LaterAssignmentsDiffer(before, after, m, earlier + 1);
    var upTo := SortByMonth(InputsBefore(before, earlier + 1));
    if MonthView(after, earlier).Some? {
      ChainCharged(upTo[..|upTo| - 1], upTo[|upTo| - 1],
                   AssignedFrom(before, earlier + 1), AssignedFrom(after, earlier + 1));
    }
  }

  /** Every entry is the view that the query would build now. */
  ghost predicate Current(entries: map<Month, View>, inputs: seq<MonthInput>) {
    forall month :: month in entries ==>
      entries[month].month == month && MonthView(inputs, month) == Some(entries[month].result)
  }

  /**
   Invalidating from the changed month leaves only views that the query would build again if and only
   if no view is left or the months from there on were assigned as much as before.
   */
  lemma {:induction false} InvalidationKeepsViewsExactly(entries: map<Month, View>, before: seq<MonthInput>,
                                                         after: seq<MonthInput>, m: Month)
    requires Current(entries, before) && DistinctMonths(before) && DistinctMonths(after)
    requires multiset(InputsBefore(before, m)) == multiset(InputsBefore(after, m))
    ensures Current(KeptBefore(entries, m), after)
            <==> KeptBefore(entries, m) == map[] || AssignedFrom(after, m) == AssignedFrom(before, m)
  {
    hide MonthView, AssignedFrom, InputsBefore, DistinctMonths;
    var kept := KeptBefore(entries, m);
    forall month | month in kept
      ensures MonthView(after, month) == Some(kept[month].result) <==> AssignedFrom(after, m) == AssignedFrom(before, m)
    {
      EarlierViewExactly(before, after, m, month);
    }
    if kept != map[] {
      var month :| month in kept;
      assert Current(kept, after) ==> MonthView(after, month) == Some(kept[month].result);
    }
  }

  // ----- A view left behind -------------------------------------------------------------------

  /** A month without categories and cards. */
  function Plain(month: Month, inflow: Money, assignments: Money): MonthInput {
    MonthInput(month, [], [], 0, 0, inflow, assignments, 0, 0, 0, [])
  }

  function Facts(taken: Money): seq<MonthInput> {
    [Plain(1, 100, 0), Plain(2, 0, taken)]
  }

  lemma PlainMonth(month: Month, inflow: Money, later: Money)
    requires 0 <= later <= inflow
    ensures CalculateMonth(Plain(month, inflow, 0).(futureAssignments := later))
         == Ok(MonthResult(month, [], inflow - later, 0, []))
  {
    assert Rows([], []) == Ok(([], 0));
    var input := Plain(month, inflow, 0).(futureAssignments := later);
    assert OpeningReady(input) == Ok(inflow - later);
    var p := Progress([], inflow - later, 0, []);
    assert Cards(p, []) == Ok(p);
  }

  lemma SingleMonth(input: MonthInput, r: MonthResult)
    requires CalculateMonth(input) == Ok(r)
    ensures Chain([input]) == Ok([r])
  {
    hide CalculateMonth;
    var inputs := [input];
    assert inputs[..0] == [] && Chain(inputs[..0]) == Ok([]);
    assert [] + [r] == [r];
  }

  lemma FirstView(taken: Money)
    requires 0 <= taken <= 100
    ensures MonthView(Facts(taken), 1) == Some(MonthResult(1, [], 100 - taken, 0, []))
    ensures InputsBefore(Facts(taken), 2) == [Plain(1, 100, 0)] && AssignedFrom(Facts(taken), 2) == taken
  {
    var facts, first := Facts(taken), Plain(1, 100, 0);
    assert facts[..1] == [first] && [first][..0] == [];
    assert InputsBefore([first], 2) == [first] && AssignedFrom([first], 2) == 0;
    assert SortByMonth([first]) == [first];
    var charged := first.(futureAssignments := taken);
    PlainMonth(1, 100, taken);
    hide Chain, CalculateMonth;
    SingleMonth(charged, MonthResult(1, [], 100 - taken, 0, []));
    var upTo := SortByMonth(InputsBefore(facts, 2));
    assert upTo == [first];
    assert upTo[..|upTo| - 1] + [charged] == [charged];
  }

  /** Assigning 50 in the second month leaves the first month cached with 100 to assign, where the query says 50. */
  lemma {:induction false} EarlierViewIsStale()
    ensures var view := View(1, 0, MonthResult(1, [], 100, 0, []));
            && Current(map[1 := view], Facts(0)) && KeptBefore(map[1 := view], 2) == map[1 := view]
            && InputsBefore(Facts(0), 2) == InputsBefore(Facts(50), 2)
            && MonthView(Facts(50), 1) == Some(MonthResult(1, [], 50, 0, []))
            && !Current(KeptBefore(map[1 := view], 2), Facts(50))
  {
    FirstView(0);
    FirstView(50);
  }
}
