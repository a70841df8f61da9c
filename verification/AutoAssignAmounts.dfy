/** What an auto-assign proposal says, amount by amount (`src/service/assignment_service.rs`, lines 188-289). */
module AutoAssignAmounts {
  import opened Wrappers
  import opened Cents
  import opened Entities
  import opened Assignments
  import opened AutoAssign

  // ----- Sums and averages --------------------------------------------------------------------

  function ExactSum(values: seq<int>): int {
    if values == [] then 0 else ExactSum(values[..|values| - 1]) + values[|values| - 1]
  }

  function Magnitudes(values: seq<Money>): (r: seq<int>)
    ensures |r| == |values| && forall i :: 0 <= i < |r| ==> r[i] == Magnitude(values[i])
  {
    seq(|values|, i requires 0 <= i < |values| => Magnitude(values[i]))
  }

  /** `q` is `sum / n` cut off towards zero. */
  predicate IsQuotient(q: int, sum: int, n: nat) {
    && Magnitude(q) * n <= Magnitude(sum) < (Magnitude(q) + 1) * n
    && (sum >= 0 ==> q >= 0) && (sum <= 0 ==> q <= 0)
  }

  /** The average of the latest months, at most `periods` of them, or nothing without any. */
  predicate IsAverage(delta: int, values: seq<int>, periods: nat) {
    && periods > 0
    && (values == [] ==> delta == 0)
    && (values != [] ==> var n := if periods < |values| then periods else |values|; IsQuotient(delta, ExactSum(values[..n]), n))
  }

  lemma {:induction false} CheckedSumIsExact(values: seq<Money>)
    requires CheckedSum(values).Ok?
    ensures CheckedSum(values).value == ExactSum(values)
  {
    if values != [] {
      CheckedSumIsExact(values[..|values| - 1]);
    }
  }

  lemma {:induction false} QuotientIsCutOff(a: int, n: nat)
    requires n > 0
    ensures IsQuotient(Quotient(a, n), a, n)
  {
    var b := Magnitude(a);
    DivisionIdentity(b, n);
    QuotientSign(a, n);
    assert Magnitude(Quotient(a, n)) == b / n;
    assert (b / n + 1) * n == b / n * n + n;
  }

  lemma {:induction false} AverageIs(values: seq<Money>, periods: nat)
    requires Average(values, periods).Ok?
    ensures IsAverage(Average(values, periods).value, values, periods)
  {
    hide Quotient, IsQuotient;
    var n := if periods < |values| then periods else |values|;
    if n > 0 {
      CheckedSumIsExact(values[..n]);
      QuotientIsCutOff(CheckedSum(values[..n]).value, n);
    }
  }

  lemma {:induction false} NormalizedIs(values: seq<Money>)
    requires NormalizedSpending(values).Ok?
    ensures NormalizedSpending(values).value == Magnitudes(values)
  {
    if values != [] {
      NormalizedIs(values[..|values| - 1]);
      assert Magnitudes(values) == Magnitudes(values[..|values| - 1]) + [Magnitude(values[|values| - 1])];
    }
  }

  // ----- Proposals ----------------------------------------------------------------------------

  /** What a strategy adds to a category. */
  predicate IsDelta(strategy: Strategy, facts: CategoryFacts, delta: int) {
    match strategy
    case Underfunded => delta == if facts.underfunded > 0 then facts.underfunded else 0
    case ScheduledThisMonth => delta == if facts.scheduledThisMonth > 0 then facts.scheduledThisMonth else 0
    case AssignedLastMonth => delta == if facts.assignedHistory == [] then 0 else facts.assignedHistory[0]
    case SpentLastMonth => delta == if facts.spentHistory == [] then 0 else Magnitude(facts.spentHistory[0])
    case AverageAssigned(periods) => IsAverage(delta, facts.assignedHistory, periods)
    case AverageSpent(periods) => IsAverage(delta, Magnitudes(facts.spentHistory), periods)
    case ResetAssigned => facts.assignedNow + delta == 0
    case ResetAvailable => facts.available + delta == 0
  }

  lemma {:induction false} DeltaIs(strategy: Strategy, facts: CategoryFacts)
    requires Delta(strategy, facts).Ok?
    ensures IsDelta(strategy, facts, Delta(strategy, facts).value)
  {
    hide IsAverage, Average, NormalizedSpending;
    match strategy
    case AverageAssigned(periods) => AverageIs(facts.assignedHistory, periods);
    case AverageSpent(periods) =>
      NormalizedIs(facts.spentHistory);
      AverageIs(NormalizedSpending(facts.spentHistory).value, periods);
    case _ =>
  }

  /** One line of a proposal: from what is assigned to that and the strategy's amount. */
  predicate IsLine(strategy: Strategy, facts: CategoryFacts, change: AssignmentChange) {
    && change.categoryId == facts.categoryId && change.before == facts.assignedNow
    && change.after == change.before + change.delta && IsDelta(strategy, facts, change.delta)
  }

  function SumOfLines(changes: seq<AssignmentChange>): int {
    if changes == [] then 0 else SumOfLines(changes[..|changes| - 1]) + changes[|changes| - 1].delta
  }

  lemma {:induction false} LinesOf(strategy: Strategy, inputs: seq<CategoryFacts>)
    requires ProposedChanges(strategy, inputs).Ok?
    ensures var (changes, total) := ProposedChanges(strategy, inputs).value;
            && |changes| == |inputs| && total == SumOfLines(changes)
            && forall i :: 0 <= i < |inputs| ==> IsLine(strategy, inputs[i], changes[i])
  {
    hide Delta, IsDelta;
    if inputs != [] {
      var init, last := inputs[..|inputs| - 1], inputs[|inputs| - 1];
      LinesOf(strategy, init);
      DeltaIs(strategy, last);
      var changes := ProposedChanges(strategy, inputs).value.0;
      assert changes[..|init|] == ProposedChanges(strategy, init).value.0;
    }
  }

  /**
   A proposal has one line for each category, in order, with the strategy's amount; it states their
   sum, what that leaves of Ready to Assign, and for each category the amount to go back to.
   */
  lemma {:induction false} ProposalStates(revision: Revision, month: Month, rta: Money, inputs: seq<CategoryFacts>, strategy: Strategy)
    requires Propose(revision, month, rta, inputs, strategy).Ok?
    ensures var p := Propose(revision, month, rta, inputs, strategy).value;
            && p.sourceRevision == revision && p.month == month
            && |p.changes| == |p.inverseCommands| == |inputs|
            && (forall i :: 0 <= i < |inputs| ==>
                  && IsLine(strategy, inputs[i], p.changes[i])
                  && p.inverseCommands[i] == (inputs[i].categoryId, inputs[i].assignedNow))
            && p.totalAssignment == SumOfLines(p.changes)
            && p.remainingRta == rta - p.totalAssignment
  {
    hide ProposedChanges, IsDelta;
    LinesOf(strategy, inputs);
  }
}
