/** Auto-assign proposals (`src/service/assignment_service.rs`, lines 188-289). */
module AutoAssign {
  import opened Wrappers
  import opened Cents
  import opened Entities
  import opened Assignments
  import BudgetMonths

  datatype Strategy =
    | Underfunded
    | ScheduledThisMonth
    | AssignedLastMonth
    | SpentLastMonth
    | AverageAssigned(periods: nat)
    | AverageSpent(periods: nat)
    | ResetAssigned
    | ResetAvailable

  datatype CategoryFacts = CategoryFacts(
    categoryId: CategoryId,
    assignedNow: Money,
    available: Money,
    underfunded: Money,
    scheduledThisMonth: Money,
    assignedHistory: seq<Money>,
    spentHistory: seq<Money>)

  function FirstOrZero(history: seq<Money>): Money {
    if history == [] then 0 else history[0]
  }

  function PositiveSpending(value: Money): Result<Money, MoneyError> {
    if value < 0 then CheckedNeg(value) else Ok(value)
  }

  function CheckedSum(values: seq<Money>): Result<Money, MoneyError> {
    if values == [] then Ok(0)
    else
      var before :- CheckedSum(values[..|values| - 1]);
      CheckedAdd(before, values[|values| - 1])
  }

  lemma {:induction false} QuotientIsMoney(a: Money, n: nat)
    requires n > 0
    ensures MIN_CENTS <= Quotient(a, n) <= MAX_CENTS
  {
    if n >= 2 {
      QuotientShrinks(a, n);
    } else {
      assert Magnitude(a) / 1 == Magnitude(a);
    }
  }

  function Average(values: seq<Money>, periods: nat): Result<Money, MoneyError> {
    if periods == 0 then Err(Invalid)
    else
      var count := Min(periods, |values|);
      if count == 0 then Ok(0)
      else
        var sum :- CheckedSum(values[..count]);
        QuotientIsMoney(sum, count);
        Ok(Quotient(sum, count))
  }

  /** Every entry is normalised, also those past the averaged periods. */
  function NormalizedSpending(values: seq<Money>): Result<seq<Money>, MoneyError> {
    if values == [] then Ok([])
    else
      var before :- NormalizedSpending(values[..|values| - 1]);
      var last :- PositiveSpending(values[|values| - 1]);
      Ok(before + [last])
  }

  function Delta(strategy: Strategy, facts: CategoryFacts): Result<Money, MoneyError> {
    match strategy
    case Underfunded => Ok(Positive(facts.underfunded))
    case ScheduledThisMonth => Ok(Positive(facts.scheduledThisMonth))
    case AssignedLastMonth => Ok(FirstOrZero(facts.assignedHistory))
    case SpentLastMonth => PositiveSpending(FirstOrZero(facts.spentHistory))
    case AverageAssigned(periods) => Average(facts.assignedHistory, periods)
    case AverageSpent(periods) =>
      var spent :- NormalizedSpending(facts.spentHistory);
      Average(spent, periods)
    case ResetAssigned => CheckedNeg(facts.assignedNow)
    case ResetAvailable => CheckedNeg(facts.available)
  }

  function ProposedChange(strategy: Strategy, facts: CategoryFacts): Result<AssignmentChange, MoneyError> {
    var delta :- Delta(strategy, facts);
    var after :- CheckedAdd(facts.assignedNow, delta);
    Ok(AssignmentChange(facts.categoryId, facts.assignedNow, after, delta))
  }

  /** The changes for all inputs with their sum. */
  function ProposedChanges(strategy: Strategy, inputs: seq<CategoryFacts>)
    : Result<(seq<AssignmentChange>, Money), MoneyError>
  {
    if inputs == [] then Ok(([], 0))
    else
      var before :- ProposedChanges(strategy, inputs[..|inputs| - 1]);
      var change :- ProposedChange(strategy, inputs[|inputs| - 1]);
      var total :- CheckedAdd(before.1, change.delta);
      Ok((before.0 + [change], total))
  }

  function InverseCommands(changes: seq<AssignmentChange>): (r: seq<(CategoryId, Money)>)
    ensures |r| == |changes| && forall i :: 0 <= i < |r| ==> r[i] == (changes[i].categoryId, changes[i].before)
  {
    seq(|changes|, i requires 0 <= i < |changes| => (changes[i].categoryId, changes[i].before))
  }

  /** A proposal; a negative remainder must have a magnitude, since a warning prints it. */
  function Propose(revision: Revision, month: Month, rta: Money, inputs: seq<CategoryFacts>, strategy: Strategy)
    : Result<Preview, MoneyError>
  {
    var proposed :- ProposedChanges(strategy, inputs);
    var remaining :- CheckedSub(rta, proposed.1);
    if remaining < 0 && CheckedNeg(remaining).Err? then Err(Overflow)
    else Ok(Preview(revision, month, proposed.0, proposed.1, remaining, InverseCommands(proposed.0)))
  }

  lemma {:induction false} FailedProposal(strategy: Strategy, inputs: seq<CategoryFacts>, at: nat)
    requires at <= |inputs| && ProposedChanges(strategy, inputs[..at]).Err?
    ensures ProposedChanges(strategy, inputs) == Err(ProposedChanges(strategy, inputs[..at]).error)
    decreases |inputs|
  {
    if at < |inputs| {
      var init := inputs[..|inputs| - 1];
      assert init[..at] == inputs[..at];
      FailedProposal(strategy, init, at);
    } else {
      assert inputs[..at] == inputs;
    }
  }

  method BuildProposal(revision: Revision, month: Month, rta: Money, inputs: seq<CategoryFacts>, strategy: Strategy)
    returns (r: Result<Preview, MoneyError>)
    ensures r == Propose(revision, month, rta, inputs, strategy)
  {
    hide ProposedChange;
    var changes: seq<AssignmentChange> := [];
    var total: Money := 0;
    for i := 0 to |inputs|
      invariant ProposedChanges(strategy, inputs[..i]) == Ok((changes, total))
    {
      assert inputs[..i + 1][..i] == inputs[..i];
      if ProposedChanges(strategy, inputs[..i + 1]).Err? {
        FailedProposal(strategy, inputs, i + 1);
      }
      var change :- ProposedChange(strategy, inputs[i]);
      total :- CheckedAdd(total, change.delta);
      changes := changes + [change];
    }
    assert inputs[..|inputs|] == inputs;
    var remaining :- CheckedSub(rta, total);
    if remaining < 0 {
      var _ :- CheckedNeg(remaining);
    }
    return Ok(Preview(revision, month, changes, total, remaining, InverseCommands(changes)));
  }

  // ----- Proposals and the book ---------------------------------------------------------------

  lemma {:induction false} ProposedShape(strategy: Strategy, inputs: seq<CategoryFacts>)
    requires ProposedChanges(strategy, inputs).Ok?
    ensures var changes := ProposedChanges(strategy, inputs).value.0;
            && |changes| == |inputs|
            && forall i :: 0 <= i < |inputs| ==> ProposedChange(strategy, inputs[i]) == Ok(changes[i])
  {
    hide ProposedChange;
    if inputs != [] {
      ProposedShape(strategy, inputs[..|inputs| - 1]);
    }
  }

  /** The inputs describe the assignments as they are. */
  predicate Current(values: Values, month: Month, inputs: seq<CategoryFacts>) {
    forall i :: 0 <= i < |inputs| ==> inputs[i].assignedNow == Get(values, (inputs[i].categoryId, month))
  }

  lemma NoProposal(strategy: Strategy, inputs: seq<CategoryFacts>)
    ensures ProposedChanges(strategy, inputs[..0]) == Ok(([], 0))
  {
    assert inputs[..0] == [];
  }

  lemma ProposedStep(strategy: Strategy, inputs: seq<CategoryFacts>, upTo: nat)
    requires 0 < upTo <= |inputs| && ProposedChanges(strategy, inputs[..upTo]).Ok?
    ensures ProposedChanges(strategy, inputs[..upTo - 1]).Ok? && ProposedChange(strategy, inputs[upTo - 1]).Ok?
    ensures ProposedChanges(strategy, inputs[..upTo]).value.1
         == ProposedChanges(strategy, inputs[..upTo - 1]).value.1 + ProposedChange(strategy, inputs[upTo - 1]).value.delta
  {
    hide ProposedChange;
    assert inputs[..upTo][..upTo - 1] == inputs[..upTo - 1];
  }

  /** A proposed change states the amount that is assigned now and where its delta leads. */
  lemma ChangeChecks(strategy: Strategy, facts: CategoryFacts, change: AssignmentChange)
    requires ProposedChange(strategy, facts) == Ok(change)
    ensures change.before == facts.assignedNow && change.categoryId == facts.categoryId
    ensures CheckedAdd(change.before, change.delta) == Ok(change.after)
  {
    hide Delta;
  }

  lemma {:induction false} ProposalChecks(values: Values, preview: Preview, strategy: Strategy,
                                          inputs: seq<CategoryFacts>, upTo: nat)
    requires upTo <= |inputs| && Current(values, preview.month, inputs)
    requires ProposedChanges(strategy, inputs).Ok? && preview.changes == ProposedChanges(strategy, inputs).value.0
    requires |preview.changes| == |inputs|
    ensures CheckPreview(values, preview, upTo).Ok?
    ensures ProposedChanges(strategy, inputs[..upTo]).Ok?
    ensures CheckPreview(values, preview, upTo).value.1 == ProposedChanges(strategy, inputs[..upTo]).value.1
  {
    hide ProposedChanges;
    ProposedShape(strategy, inputs);
    if ProposedChanges(strategy, inputs[..upTo]).Err? {
      FailedProposal(strategy, inputs, upTo);
    }
    if upTo == 0 {
      NoProposal(strategy, inputs);
    } else {
      ProposalChecks(values, preview, strategy, inputs, upTo - 1);
      ProposedStep(strategy, inputs, upTo);
      ChangeChecks(strategy, inputs[upTo - 1], preview.changes[upTo - 1]);
    }
  }

  /**
   A proposal made from the current assignments at the current revision is accepted as it stands,
   and its remaining amount is Ready to Assign less everything it assigns.
   */
  lemma FreshProposalIsAccepted(values: Values, revision: Revision, month: Month, rta: Money,
                                inputs: seq<CategoryFacts>, strategy: Strategy)
    requires Current(values, month, inputs)
    requires Propose(revision, month, rta, inputs, strategy).Ok?
    ensures var preview := Propose(revision, month, rta, inputs, strategy).value;
            && PreviewChanges(values, revision, preview).Ok?
            && preview.remainingRta == rta - preview.totalAssignment
  {
    var preview := Propose(revision, month, rta, inputs, strategy).value;
    ProposedShape(strategy, inputs);
    ProposalChecks(values, preview, strategy, inputs, |inputs|);
    assert inputs[..|inputs|] == inputs;
  }

  predicate DistinctInputs(inputs: seq<CategoryFacts>) {
    forall i, j :: 0 <= i < j < |inputs| ==> inputs[i].categoryId != inputs[j].categoryId
  }

  /** The inverse commands of a preview, as replacements of the month's cells. */
  function InverseChanges(preview: Preview): (r: seq<Change>)
    ensures |r| == |preview.inverseCommands|
    ensures forall i :: 0 <= i < |r| ==>
              r[i] == ((preview.inverseCommands[i].0, preview.month), preview.inverseCommands[i].1)
  {
    seq(|preview.inverseCommands|, i requires 0 <= i < |preview.inverseCommands| =>
      ((preview.inverseCommands[i].0, preview.month), preview.inverseCommands[i].1))
  }

  lemma ResetDelta(facts: CategoryFacts)
    ensures Delta(ResetAssigned, facts) == CheckedNeg(facts.assignedNow)
  {
  }

  /** What an accepted fresh proposal writes, and what its inverse commands would write. */
  lemma AcceptedShape(values: Values, revision: Revision, month: Month, rta: Money,
                      inputs: seq<CategoryFacts>, strategy: Strategy)
    requires Current(values, month, inputs) && DistinctInputs(inputs)
    requires Propose(revision, month, rta, inputs, strategy).Ok?
    ensures var preview := Propose(revision, month, rta, inputs, strategy).value;
            && PreviewChanges(values, revision, preview).Ok?
            && var changes, inverse := PreviewChanges(values, revision, preview).value, InverseChanges(preview);
               && |changes| == |inverse| == |inputs|
               && DistinctCells(changes) && DistinctCells(inverse)
               && (forall i :: 0 <= i < |inputs| ==>
                     && changes[i].0 == inverse[i].0 == (inputs[i].categoryId, month)
                     && inverse[i].1 == Get(values, inverse[i].0)
                     && (strategy == ResetAssigned ==> changes[i].1 == 0))
  {
    hide Delta;
    var preview := Propose(revision, month, rta, inputs, strategy).value;
    FreshProposalIsAccepted(values, revision, month, rta, inputs, strategy);
    ProposedShape(strategy, inputs);
    CheckedPreviewShape(values, preview, |inputs|);
    forall i | 0 <= i < |inputs|
      ensures preview.changes[i].categoryId == inputs[i].categoryId
      ensures preview.changes[i].before == inputs[i].assignedNow
      ensures strategy == ResetAssigned ==> preview.changes[i].after == 0
    {
      assert ProposedChange(strategy, inputs[i]) == Ok(preview.changes[i]);
      if strategy == ResetAssigned {
        ResetDelta(inputs[i]);
      }
    }
  }

  lemma {:induction false} WrittenZero(values: Values, changes: seq<Change>, i: nat)
    requires i < |changes| && changes[i].1 == 0 && DistinctCells(changes)
    ensures changes[i].0 !in ApplyAll(values, changes)
  {
    if i < |changes| - 1 {
      WrittenZero(values, changes[..|changes| - 1], i);
    }
  }

  /** Resetting assignments leaves every listed category with nothing assigned. */
  lemma ResetClearsCategories(values: Values, revision: Revision, month: Month, rta: Money,
                              inputs: seq<CategoryFacts>)
    requires Current(values, month, inputs) && DistinctInputs(inputs)
    requires Propose(revision, month, rta, inputs, ResetAssigned).Ok?
    ensures var preview := Propose(revision, month, rta, inputs, ResetAssigned).value;
            && PreviewChanges(values, revision, preview).Ok?
            && forall i :: 0 <= i < |inputs| ==>
                 (inputs[i].categoryId, month) !in ApplyAll(values, PreviewChanges(values, revision, preview).value)
  {
    hide Propose, PreviewChanges, ApplyAll, Current;
    AcceptedShape(values, revision, month, rta, inputs, ResetAssigned);
    var changes := PreviewChanges(values, revision, Propose(revision, month, rta, inputs, ResetAssigned).value).value;
    forall i | 0 <= i < |inputs|
      ensures (inputs[i].categoryId, month) !in ApplyAll(values, changes)
    {
      WrittenZero(values, changes, i);
    }
  }

  /** Replacing by the inverse commands takes an accepted proposal back, cell by cell. */
  lemma InverseCommandsRestore(values: Values, revision: Revision, month: Month, rta: Money,
                               inputs: seq<CategoryFacts>, strategy: Strategy, cell: Cell)
    requires Current(values, month, inputs) && DistinctInputs(inputs)
    requires Propose(revision, month, rta, inputs, strategy).Ok?
    ensures var preview := Propose(revision, month, rta, inputs, strategy).value;
            && PreviewChanges(values, revision, preview).Ok?
            && var after := ApplyAll(values, PreviewChanges(values, revision, preview).value);
               Get(ApplyAll(after, InverseChanges(preview)), cell) == Get(values, cell)
  {
    hide Propose, PreviewChanges, ApplyAll, Current;
    AcceptedShape(values, revision, month, rta, inputs, strategy);
    var preview := Propose(revision, month, rta, inputs, strategy).value;
    var changes, inverse := PreviewChanges(values, revision, preview).value, InverseChanges(preview);
    var after := ApplyAll(values, changes);
    if exists i :: 0 <= i < |inputs| && inverse[i].0 == cell {
      var i :| 0 <= i < |inputs| && inverse[i].0 == cell;
      ApplyDistinct(after, inverse);
      assert Get(ApplyAll(after, inverse), inverse[i].0) == inverse[i].1;
    } else {
      ApplyLeavesOthers(values, changes, cell);
      ApplyLeavesOthers(after, inverse, cell);
      assert Lookup(ApplyAll(after, inverse), cell) == Lookup(values, cell);
    }
  }

  // ----- Single strategies --------------------------------------------------------------------

  lemma {:induction false} SumIsBetween(values: seq<Money>, least: int, greatest: int)
    requires CheckedSum(values).Ok? && forall i :: 0 <= i < |values| ==> least <= values[i] <= greatest
    ensures |values| * least <= CheckedSum(values).value <= |values| * greatest
  {
    if values != [] {
      SumIsBetween(values[..|values| - 1], least, greatest);
      assert |values| * least == (|values| - 1) * least + least;
      assert |values| * greatest == (|values| - 1) * greatest + greatest;
    }
  }

  lemma {:induction false} StepUp(n: int, x: int, y: int)
    requires n > 0
    ensures n * x == x * n
    ensures x < y ==> n * x + n <= n * y
  {
    if x < y {
      assert n * y == n * x + n + n * (y - x - 1);
    }
  }

  lemma {:induction false} DivisionBetween(a: nat, n: int, least: int, greatest: int)
    requires n > 0 && n * least <= a <= n * greatest
    ensures least <= a / n <= greatest
  {
    DivisionIdentity(a, n);
    StepUp(n, a / n, least);
    StepUp(n, greatest, a / n);
  }

  lemma {:induction false} QuotientIsBetween(a: int, n: int, least: int, greatest: int)
    requires n > 0 && n * least <= a <= n * greatest
    ensures least <= Quotient(a, n) <= greatest
  {
    if a >= 0 {
      DivisionBetween(a, n, least, greatest);
    } else {
      assert n * (0 - greatest) == 0 - n * greatest && n * (0 - least) == 0 - n * least;
      DivisionBetween(0 - a, n, 0 - greatest, 0 - least);
    }
  }

  /** An average of recent months is no less than the least and no more than the greatest of them. */
  lemma {:induction false} AverageIsBetween(values: seq<Money>, periods: nat, least: Money, greatest: Money)
    requires Average(values, periods).Ok? && values != []
    requires forall i :: 0 <= i < |values| && i < periods ==> least <= values[i] <= greatest
    ensures least <= Average(values, periods).value <= greatest
  {
    var count := Min(periods, |values|);
    SumIsBetween(values[..count], least, greatest);
    QuotientIsBetween(CheckedSum(values[..count]).value, count, least, greatest);
  }

  /** Proposing to reset what is available, and assigning it, leaves the category with nothing. */
  lemma ResetAvailableEmptiesCategory(prior: seq<BudgetMonths.PriorCategory>, c: BudgetMonths.CategoryInput,
                                                         facts: CategoryFacts)
    requires BudgetMonths.CategoryRow(prior, c).Ok?
    requires facts.assignedNow == c.given && facts.available == BudgetMonths.CategoryRow(prior, c).value.available
    requires ProposedChange(ResetAvailable, facts).Ok?
    ensures var after := c.(given := ProposedChange(ResetAvailable, facts).value.after);
            BudgetMonths.CategoryRow(prior, after).Ok? ==> BudgetMonths.CategoryRow(prior, after).value.available == 0
  {
    hide BudgetMonths.FundingOf, BudgetMonths.CarriedOver;
  }
}
