/** Monthly assignments with undo, moves, distribution and previews (`src/service/assignment_service.rs`). */
module Assignments {
  import opened Wrappers
  import opened Cents
  import opened Entities
  import opened Sums

  /** A calendar month counted without breaks. */
  type Month = int
  type Cell = (CategoryId, Month)
  type Values = map<Cell, Money>

  const MAX_REVISION := 0xffff_ffff_ffff_ffff
  type Revision = x: int | 0 <= x <= MAX_REVISION

  datatype DistributionRule = EqualShares | InOrder

  datatype AssignmentChange = AssignmentChange(categoryId: CategoryId, before: Money, after: Money, delta: Money)

  datatype Preview = Preview(
    sourceRevision: Revision,
    month: Month,
    changes: seq<AssignmentChange>,
    totalAssignment: Money,
    remainingRta: Money,
    inverseCommands: seq<(CategoryId, Money)>)

  type Change = (Cell, Money)
  type Undo = seq<(Cell, Option<Money>)>

  /** What the map shows for a cell; an absent cell is zero. */
  function Get(values: Values, cell: Cell): Money {
    if cell in values then values[cell] else 0
  }

  function Lookup(values: Values, cell: Cell): Option<Money> {
    if cell in values then Some(values[cell]) else None
  }

  function Write(values: Values, cell: Cell, value: Option<Money>): Values {
    match value
    case None => values - {cell}
    case Some(v) => values[cell := v]
  }

  /** A zero assignment is stored as no assignment. */
  function Stored(value: Money): Option<Money> {
    if value == 0 then None else Some(value)
  }

  function ApplyAll(values: Values, changes: seq<Change>): Values {
    if changes == [] then values
    else
      var last := changes[|changes| - 1];
      Write(ApplyAll(values, changes[..|changes| - 1]), last.0, Stored(last.1))
  }

  function UndoRecord(values: Values, changes: seq<Change>): (undo: Undo)
    ensures |undo| == |changes|
    ensures forall i :: 0 <= i < |undo| ==> undo[i] == (changes[i].0, Lookup(values, changes[i].0))
  {
    seq(|changes|, i requires 0 <= i < |changes| => (changes[i].0, Lookup(values, changes[i].0)))
  }

  function UndoAll(values: Values, undo: Undo): Values {
    if undo == [] then values
    else
      var last := undo[|undo| - 1];
      Write(UndoAll(values, undo[..|undo| - 1]), last.0, last.1)
  }

  function NextRevision(revision: Revision): Revision {
    if revision == MAX_REVISION then revision else revision + 1
  }

  // ----- Undo ---------------------------------------------------------------------------------

  lemma {:induction false} ApplyLeavesOthers(values: Values, changes: seq<Change>, cell: Cell)
    requires forall i :: 0 <= i < |changes| ==> changes[i].0 != cell
    ensures Lookup(ApplyAll(values, changes), cell) == Lookup(values, cell)
  {
    if changes != [] {
      ApplyLeavesOthers(values, changes[..|changes| - 1], cell);
    }
  }

  lemma {:induction false} UndoRestores(values: Values, undo: Undo, original: Values, cell: Cell)
    requires forall i :: 0 <= i < |undo| ==> undo[i].1 == Lookup(original, undo[i].0)
    ensures Lookup(UndoAll(values, undo), cell)
         == if exists i :: 0 <= i < |undo| && undo[i].0 == cell then Lookup(original, cell) else Lookup(values, cell)
  {
    if undo != [] {
      var init := undo[..|undo| - 1];
      UndoRestores(values, init, original, cell);
      if undo[|undo| - 1].0 != cell && exists i :: 0 <= i < |undo| && undo[i].0 == cell {
        var i :| 0 <= i < |undo| && undo[i].0 == cell;
        assert init[i].0 == cell;
      }
    }
  }

  lemma SameLookups(a: Values, b: Values)
    requires forall cell :: Lookup(a, cell) == Lookup(b, cell)
    ensures a == b
  {
    forall cell | cell in a || cell in b
      ensures cell in a && cell in b && a[cell] == b[cell]
    {
      assert Lookup(a, cell) == Lookup(b, cell);
    }
  }

  /** Undoing one command restores the map exactly, even when it wrote a cell twice. */
  lemma UndoInvertsApply(values: Values, changes: seq<Change>)
    ensures UndoAll(ApplyAll(values, changes), UndoRecord(values, changes)) == values
  {
    var undo := UndoRecord(values, changes);
    var after := ApplyAll(values, changes);
    forall cell
      ensures Lookup(UndoAll(after, undo), cell) == Lookup(values, cell)
    {
      UndoRestores(after, undo, values, cell);
      if !exists i :: 0 <= i < |undo| && undo[i].0 == cell {
        forall i | 0 <= i < |changes| ensures changes[i].0 != cell {
          assert undo[i].0 == changes[i].0;
        }
        ApplyLeavesOthers(values, changes, cell);
      }
    }
    SameLookups(UndoAll(after, undo), values);
  }

  function ApplyStack(values: Values, stack: seq<seq<Change>>): Values
    decreases |stack|
  {
    if stack == [] then values else ApplyStack(ApplyAll(values, stack[0]), stack[1..])
  }

  /** The undo records of a stack of commands, in the order the commands ran. */
  function StackRecords(values: Values, stack: seq<seq<Change>>): seq<Undo>
    decreases |stack|
  {
    if stack == [] then []
    else [UndoRecord(values, stack[0])] + StackRecords(ApplyAll(values, stack[0]), stack[1..])
  }

  function UndoStack(values: Values, records: seq<Undo>): Values
    decreases |records|
  {
    if records == [] then values
    else UndoStack(UndoAll(values, records[|records| - 1]), records[..|records| - 1])
  }

  lemma {:induction false} UndoStackFirst(values: Values, first: Undo, records: seq<Undo>)
    ensures UndoStack(values, [first] + records) == UndoAll(UndoStack(values, records), first)
    decreases |records|
  {
    var all := [first] + records;
    if records == [] {
      assert all == [first] && all[..0] == [];
    } else {
      var n := |records|;
      assert all[n] == records[n - 1] && all[..n] == [first] + records[..n - 1];
      UndoStackFirst(UndoAll(values, records[n - 1]), first, records[..n - 1]);
    }
  }

  /** Undoing any stack of commands in reverse order restores the assignment map exactly. */
  lemma {:induction false} UndoStackRestores(values: Values, stack: seq<seq<Change>>)
    ensures UndoStack(ApplyStack(values, stack), StackRecords(values, stack)) == values
    decreases |stack|
  {
    if stack != [] {
      var after := ApplyAll(values, stack[0]);
      UndoStackRestores(after, stack[1..]);
      UndoStackFirst(ApplyStack(values, stack), UndoRecord(values, stack[0]), StackRecords(after, stack[1..]));
      UndoInvertsApply(values, stack[0]);
    }
  }

  /** No zero is ever stored, by commands or by their undoing. */
  ghost predicate NoZeros(values: Values) {
    forall cell :: cell in values ==> values[cell] != 0
  }

  lemma {:induction false} NoZerosKept(values: Values, changes: seq<Change>)
    requires NoZeros(values)
    ensures NoZeros(ApplyAll(values, changes))
  {
    if changes != [] {
      NoZerosKept(values, changes[..|changes| - 1]);
    }
  }

  // ----- Totals -------------------------------------------------------------------------------

  lemma WriteTotal(values: Values, cell: Cell, value: Money)
    ensures Total(Write(values, cell, Stored(value))) == Total(values) - Get(values, cell) + value
  {
    if value == 0 {
      if cell in values {
        TotalRemove(values, cell);
      } else {
        assert values - {cell} == values;
      }
    } else if cell in values {
      TotalReplace(values, cell, value);
    } else {
      TotalInsert(values, cell, value);
    }
  }

  predicate DistinctCells(changes: seq<Change>) {
    forall i, j :: 0 <= i < j < |changes| ==> changes[i].0 != changes[j].0
  }

  /** How much the changes add to what their cells held before. */
  function SumOfDeltas(values: Values, changes: seq<Change>): int {
    if changes == [] then 0
    else
      var last := changes[|changes| - 1];
      SumOfDeltas(values, changes[..|changes| - 1]) + (last.1 - Get(values, last.0))
  }

  lemma {:induction false} ApplyDistinct(values: Values, changes: seq<Change>)
    requires DistinctCells(changes)
    ensures Total(ApplyAll(values, changes)) == Total(values) + SumOfDeltas(values, changes)
    ensures forall i :: 0 <= i < |changes| ==> Get(ApplyAll(values, changes), changes[i].0) == changes[i].1
  {
    if changes != [] {
      var init, last := changes[..|changes| - 1], changes[|changes| - 1];
      ApplyDistinct(values, init);
      var before := ApplyAll(values, init);
      ApplyLeavesOthers(values, init, last.0);
      assert Lookup(before, last.0) == Lookup(values, last.0);
      WriteTotal(before, last.0, last.1);
    }
  }

  // ----- Moving money -------------------------------------------------------------------------

  function MoveChanges(values: Values, source: CategoryId, target: CategoryId, month: Month, amount: Money)
    : Result<seq<Change>, MoneyError>
  {
    var left :- CheckedSub(Get(values, (source, month)), amount);
    var right :- CheckedAdd(Get(values, (target, month)), amount);
    Ok([((source, month), left), ((target, month), right)])
  }

  lemma ApplyOne(values: Values, change: Change)
    ensures ApplyAll(values, [change]) == Write(values, change.0, Stored(change.1))
  {
    var none: seq<Change> := [];
    assert [change][..0] == none;
    assert ApplyAll(values, none) == values;
  }

  /**
   A successful move keeps the total exactly when it moves between different categories or moves
   nothing; onto itself it adds the amount.
   */
  lemma MoveConserves(values: Values, source: CategoryId, target: CategoryId, month: Month, amount: Money)
    requires MoveChanges(values, source, target, month, amount).Ok?
    ensures var after := ApplyAll(values, MoveChanges(values, source, target, month, amount).value);
            && (Total(after) == Total(values) <==> source != target || amount == 0)
            && (source == target ==> Total(after) == Total(values) + amount)
            && (source != target ==>
                  && Get(after, (source, month)) == Get(values, (source, month)) - amount
                  && Get(after, (target, month)) == Get(values, (target, month)) + amount)
  {
    var changes := MoveChanges(values, source, target, month, amount).value;
    var a, b := changes[0], changes[1];
    assert changes[..1] == [a];
    var middle := ApplyAll(values, [a]);
    ApplyOne(values, a);
    assert Get(middle, b.0) == if b.0 == a.0 then a.1 else Get(values, b.0);
    assert ApplyAll(values, changes) == Write(middle, b.0, Stored(b.1));
    WriteTotal(values, a.0, a.1);
    WriteTotal(middle, b.0, b.1);
  }

  // ----- Distribution -------------------------------------------------------------------------

  /** Division and remainder truncating towards zero, as on 64-bit integers. */
  function Quotient(a: int, n: int): int
    requires n > 0
  {
    if a < 0 then 0 - (0 - a) / n else a / n
  }

  function Remainder(a: int, n: int): int
    requires n > 0
  {
    a - Quotient(a, n) * n
  }

  function Signum(a: int): int {
    if a < 0 then -1 else if a > 0 then 1 else 0
  }

  lemma DivisionIdentity(b: nat, n: int)
    requires n > 0
    ensures b / n * n == b - b % n && 0 <= b % n < n
  {
  }

  lemma NegatedProduct(q: int, n: int)
    ensures (0 - q) * n == 0 - q * n
  {
  }

  lemma SignedProduct(sign: int, b: int)
    ensures sign == 1 ==> sign * b == b
    ensures sign == -1 ==> sign * b == 0 - b
  {
  }

  lemma ZeroDivided(n: int)
    requires n > 0
    ensures 0 / n == 0 && 0 % n == 0 && 0 * n == 0
  {
  }

  /** The truncated remainder is the ordinary one of the magnitude, with the sign of the dividend. */
  lemma {:induction false} RemainderIsSigned(a: int, n: int)
    requires n > 0
    ensures Remainder(a, n) == Signum(a) * (Magnitude(a) % n)
  {
    var b := Magnitude(a);
    DivisionIdentity(b, n);
    if a < 0 {
      NegatedProduct(b / n, n);
      SignedProduct(-1, b % n);
    } else if a > 0 {
      SignedProduct(1, b % n);
    } else {
      ZeroDivided(n);
    }
  }

  lemma {:induction false} RemainderBound(a: int, n: int)
    requires n > 0
    ensures 0 - n < Remainder(a, n) < n
    ensures Signum(Remainder(a, n)) == Signum(a) || Remainder(a, n) == 0
  {
    hide Remainder;
    RemainderIsSigned(a, n);
    DivisionIdentity(Magnitude(a), n);
  }

  /** The extra cent of position `i`: the remainder is handed out one cent at a time from the front. */
  function Extra(rule: DistributionRule, remainder: int, i: nat): int {
    if rule == InOrder && i < Magnitude(remainder) then Signum(remainder) else 0
  }

  function Share(rule: DistributionRule, amount: Money, count: nat, i: nat): int
    requires i < count
  {
    Quotient(amount, count) + Extra(rule, Remainder(amount, count), i)
  }

  lemma QuotientTwice(q: nat, n: int)
    requires n >= 2
    ensures 2 * q <= q * n
  {
    assert q * n == q * (n - 2) + 2 * q;
    assert q * (n - 2) >= 0;
  }

  lemma QuotientShrinks(a: int, n: int)
    requires n >= 2
    ensures 0 - Magnitude(a) <= 2 * Quotient(a, n) <= Magnitude(a)
  {
    var b := Magnitude(a);
    var q := b / n;
    DivisionIdentity(b, n);
    QuotientTwice(q, n);
    assert Magnitude(Quotient(a, n)) == q;
  }

  lemma ShareIsMoney(rule: DistributionRule, amount: Money, count: nat, i: nat)
    requires i < count
    ensures MIN_CENTS <= Share(rule, amount, count, i) <= MAX_CENTS
  {
    RemainderBound(amount, count);
    var q := Quotient(amount, count);
    if count == 1 {
      assert Remainder(amount, 1) == amount - q;
    } else {
      QuotientShrinks(amount, count);
    }
  }

  /** The changes of a distribution over the first `upTo` of the ids. */
  function DistributeChanges(values: Values, ids: seq<CategoryId>, month: Month, amount: Money,
                             rule: DistributionRule, upTo: nat): Result<seq<Change>, MoneyError>
    requires upTo <= |ids|
  {
    if upTo == 0 then Ok([])
    else
      ShareIsMoney(rule, amount, |ids|, upTo - 1);
      var before :- DistributeChanges(values, ids, month, amount, rule, upTo - 1);
      var cell := (ids[upTo - 1], month);
      var value :- CheckedAdd(Get(values, cell), Share(rule, amount, |ids|, upTo - 1));
      Ok(before + [(cell, value)])
  }

  function SumOfShares(rule: DistributionRule, amount: Money, count: nat, upTo: nat): int
    requires upTo <= count
  {
    if upTo == 0 then 0
    else SumOfShares(rule, amount, count, upTo - 1) + Share(rule, amount, count, upTo - 1)
  }

  lemma {:induction false} SharesAddUp(rule: DistributionRule, amount: Money, count: nat, upTo: nat)
    requires upTo <= count && count > 0
    ensures var r := Remainder(amount, count);
            SumOfShares(rule, amount, count, upTo)
            == Quotient(amount, count) * upTo
               + if rule == EqualShares then 0 else Signum(r) * Min(upTo, Magnitude(r))
  {
    if upTo > 0 {
      SharesAddUp(rule, amount, count, upTo - 1);
      var q := Quotient(amount, count);
      assert q * (upTo - 1) + q == q * upTo;
    }
  }

  /** Every share of a whole distribution: the amount, short of the remainder when that is left out. */
  lemma AllSharesAddUp(rule: DistributionRule, amount: Money, count: nat)
    requires count > 0
    ensures SumOfShares(rule, amount, count, count)
         == amount - (if rule == InOrder then 0 else Remainder(amount, count))
  {
    SharesAddUp(rule, amount, count, count);
    RemainderBound(amount, count);
  }

  lemma {:induction false} DistributeShape(values: Values, ids: seq<CategoryId>, month: Month, amount: Money,
                                           rule: DistributionRule, upTo: nat)
    requires upTo <= |ids| && DistributeChanges(values, ids, month, amount, rule, upTo).Ok?
    ensures var changes := DistributeChanges(values, ids, month, amount, rule, upTo).value;
            && |changes| == upTo
            && forall i :: 0 <= i < upTo ==>
                 && changes[i].0 == (ids[i], month)
                 && changes[i].1 == Get(values, (ids[i], month)) + Share(rule, amount, |ids|, i)
  {
    hide Share;
    if upTo > 0 {
      DistributeShape(values, ids, month, amount, rule, upTo - 1);
    }
  }

  lemma {:induction false} DistributeSum(values: Values, ids: seq<CategoryId>, month: Month, amount: Money,
                                         rule: DistributionRule, upTo: nat)
    requires upTo <= |ids| && DistributeChanges(values, ids, month, amount, rule, upTo).Ok?
    ensures SumOfDeltas(values, DistributeChanges(values, ids, month, amount, rule, upTo).value)
         == SumOfShares(rule, amount, |ids|, upTo)
  {
    hide Share;
    if upTo > 0 {
      DistributeSum(values, ids, month, amount, rule, upTo - 1);
      DistributeShape(values, ids, month, amount, rule, upTo - 1);
      var before := DistributeChanges(values, ids, month, amount, rule, upTo - 1).value;
      var changes := DistributeChanges(values, ids, month, amount, rule, upTo).value;
      assert changes[..upTo - 1] == before;
    }
  }

  lemma QuotientSign(a: int, n: int)
    requires n > 0
    ensures a >= 0 ==> Quotient(a, n) >= 0
    ensures a <= 0 ==> Quotient(a, n) <= 0
  {
  }

  lemma {:induction false} SharesAreFair(amount: Money, count: nat, rule: DistributionRule)
    requires count > 0
    ensures forall i, j :: 0 <= i < j < count ==>
              0 <= Magnitude(Share(rule, amount, count, i)) - Magnitude(Share(rule, amount, count, j)) <= 1
  {
    hide Quotient, Remainder;
    RemainderBound(amount, count);
    QuotientSign(amount, count);
  }

  /**
   In-order distribution over distinct categories adds exactly the signed amount, each category
   gets its share, and no two shares differ by more than one cent; the larger shares come first.
   An equal distribution leaves the remainder of the division unassigned.
   */
  lemma {:induction false} DistributionIsExactAndFair(values: Values, ids: seq<CategoryId>, month: Month, amount: Money,
                                   rule: DistributionRule)
    requires ids != [] && DistinctIds(ids)
    requires DistributeChanges(values, ids, month, amount, rule, |ids|).Ok?
    ensures var after := ApplyAll(values, DistributeChanges(values, ids, month, amount, rule, |ids|).value);
            && Total(after) == Total(values) + amount - (if rule == InOrder then 0 else Remainder(amount, |ids|))
            && forall i :: 0 <= i < |ids| ==>
                 Get(after, (ids[i], month)) == Get(values, (ids[i], month)) + Share(rule, amount, |ids|, i)
    ensures forall i, j :: 0 <= i < j < |ids| ==>
              0 <= Magnitude(Share(rule, amount, |ids|, i)) - Magnitude(Share(rule, amount, |ids|, j)) <= 1
  {
    hide Share, Quotient, Remainder;
    var n := |ids|;
    var changes := DistributeChanges(values, ids, month, amount, rule, n).value;
    DistributeShape(values, ids, month, amount, rule, n);
    DistributeSum(values, ids, month, amount, rule, n);
    assert DistinctCells(changes);
    ApplyDistinct(values, changes);
    AllSharesAddUp(rule, amount, n);
    forall i | 0 <= i < n
      ensures Get(ApplyAll(values, changes), (ids[i], month))
           == Get(values, (ids[i], month)) + Share(rule, amount, n, i)
    {
      assert changes[i].0 == (ids[i], month);
    }
    SharesAreFair(amount, n, rule);
  }

  // ----- Previews -----------------------------------------------------------------------------

  /** The checks on the first `upTo` changes of a preview, with the changes to write and their sum. */
  function CheckPreview(values: Values, preview: Preview, upTo: nat): Result<(seq<Change>, Money), MoneyError>
    requires upTo <= |preview.changes|
  {
    if upTo == 0 then Ok(([], 0))
    else
      var checked :- CheckPreview(values, preview, upTo - 1);
      var change := preview.changes[upTo - 1];
      var cell := (change.categoryId, preview.month);
      if Get(values, cell) != change.before then Err(Invalid)
      else
        var total :- CheckedAdd(checked.1, change.delta);
        var after :- CheckedAdd(change.before, change.delta);
        if after != change.after then Err(Invalid) else Ok((checked.0 + [(cell, change.after)], total))
  }

  function PreviewChanges(values: Values, revision: Revision, preview: Preview): Result<seq<Change>, MoneyError> {
    if preview.sourceRevision != revision then Err(Invalid)
    else
      var checked :- CheckPreview(values, preview, |preview.changes|);
      if checked.1 != preview.totalAssignment then Err(Invalid) else Ok(checked.0)
  }

  predicate DistinctCategories(changes: seq<AssignmentChange>) {
    forall i, j :: 0 <= i < j < |changes| ==> changes[i].categoryId != changes[j].categoryId
  }

  lemma {:induction false} CheckedPreviewShape(values: Values, preview: Preview, upTo: nat)
    requires upTo <= |preview.changes| && CheckPreview(values, preview, upTo).Ok?
    ensures var (changes, total) := CheckPreview(values, preview, upTo).value;
            && |changes| == upTo
            && (forall i :: 0 <= i < upTo ==>
                  && changes[i] == ((preview.changes[i].categoryId, preview.month), preview.changes[i].after)
                  && Get(values, changes[i].0) == preview.changes[i].before)
            && SumOfDeltas(values, changes) == total
  {
    if upTo > 0 {
      CheckedPreviewShape(values, preview, upTo - 1);
      var before := CheckPreview(values, preview, upTo - 1).value.0;
      var changes := CheckPreview(values, preview, upTo).value.0;
      assert changes[..upTo - 1] == before;
    }
  }

  /** An accepted preview over distinct categories writes every stated value and changes the total by its sum. */
  lemma PreviewAppliesItsSum(values: Values, revision: Revision, preview: Preview)
    requires DistinctCategories(preview.changes) && PreviewChanges(values, revision, preview).Ok?
    ensures var after := ApplyAll(values, PreviewChanges(values, revision, preview).value);
            && Total(after) == Total(values) + preview.totalAssignment
            && (forall i :: 0 <= i < |preview.changes| ==>
                  Get(after, (preview.changes[i].categoryId, preview.month)) == preview.changes[i].after)
            && (forall cell :: (forall i :: 0 <= i < |preview.changes| ==>
                                  cell != (preview.changes[i].categoryId, preview.month))
                               ==> Get(after, cell) == Get(values, cell))
  {
    var changes := PreviewChanges(values, revision, preview).value;
    CheckedPreviewShape(values, preview, |preview.changes|);
    assert DistinctCells(changes);
    ApplyDistinct(values, changes);
    forall cell | forall i :: 0 <= i < |preview.changes| ==> cell != (preview.changes[i].categoryId, preview.month)
      ensures Get(ApplyAll(values, changes), cell) == Get(values, cell)
    {
      ApplyLeavesOthers(values, changes, cell);
      assert Lookup(ApplyAll(values, changes), cell) == Lookup(values, cell);
    }
  }

  lemma {:induction false} FailedPrefix(values: Values, ids: seq<CategoryId>, month: Month, amount: Money,
                                        rule: DistributionRule, at: nat, upTo: nat)
    requires at <= upTo <= |ids| && DistributeChanges(values, ids, month, amount, rule, at).Err?
    ensures DistributeChanges(values, ids, month, amount, rule, upTo)
         == Err(DistributeChanges(values, ids, month, amount, rule, at).error)
    decreases upTo
  {
    if at < upTo {
      FailedPrefix(values, ids, month, amount, rule, at, upTo - 1);
    }
  }

  lemma {:induction false} FailedCheck(values: Values, preview: Preview, at: nat, upTo: nat)
    requires at <= upTo <= |preview.changes| && CheckPreview(values, preview, at).Err?
    ensures CheckPreview(values, preview, upTo) == Err(CheckPreview(values, preview, at).error)
    decreases upTo
  {
    if at < upTo {
      FailedCheck(values, preview, at, upTo - 1);
    }
  }

  // ----- The collection -----------------------------------------------------------------------

  class AssignmentBook {
    var values: Values
    var revision: Revision

    constructor ()
      ensures values == map[] && revision == 0
    {
      values, revision := map[], 0;
    }

    method Apply(changes: seq<Change>) returns (undo: Undo)
      modifies this
      ensures values == ApplyAll(old(values), changes)
      ensures undo == UndoRecord(old(values), changes)
      ensures revision == NextRevision(old(revision))
    {
      undo := UndoRecord(values, changes);
      for i := 0 to |changes|
        invariant values == ApplyAll(old(values), changes[..i])
        invariant revision == old(revision)
      {
        assert changes[..i + 1][..i] == changes[..i];
        var (cell, value) := changes[i];
        if value == 0 {
          values := values - {cell};
        } else {
          values := values[cell := value];
        }
      }
      assert changes[..|changes|] == changes;
      revision := NextRevision(revision);
    }

    method UndoCommand(undo: Undo)
      modifies this
      ensures values == UndoAll(old(values), undo)
      ensures revision == NextRevision(old(revision))
    {
      for i := 0 to |undo|
        invariant values == UndoAll(old(values), undo[..i])
        invariant revision == old(revision)
      {
        assert undo[..i + 1][..i] == undo[..i];
        var (cell, value) := undo[i];
        match value
        case Some(v) => values := values[cell := v];
        case None => values := values - {cell};
      }
      assert undo[..|undo|] == undo;
      revision := NextRevision(revision);
    }

    method MoveMoney(source: CategoryId, target: CategoryId, month: Month, amount: Money)
      returns (r: Result<Undo, MoneyError>)
      modifies this
      ensures var changes := MoveChanges(old(values), source, target, month, amount);
              if changes.Ok? then
                && values == ApplyAll(old(values), changes.value)
                && r == Ok(UndoRecord(old(values), changes.value))
                && revision == NextRevision(old(revision))
              else r == Err(changes.error) && values == old(values) && revision == old(revision)
    {
      var left :- CheckedSub(Get(values, (source, month)), amount);
      var right :- CheckedAdd(Get(values, (target, month)), amount);
      var undo := Apply([((source, month), left), ((target, month), right)]);
      return Ok(undo);
    }

    method Distribute(ids: seq<CategoryId>, month: Month, amount: Money, rule: DistributionRule)
      returns (r: Result<Undo, MoneyError>)
      modifies this
      ensures ids == [] ==> r == Ok([]) && values == old(values) && revision == old(revision)
      ensures ids != [] ==>
                var changes := DistributeChanges(old(values), ids, month, amount, rule, |ids|);
                if changes.Ok? then
                  && values == ApplyAll(old(values), changes.value)
                  && r == Ok(UndoRecord(old(values), changes.value))
                  && revision == NextRevision(old(revision))
                else r == Err(changes.error) && values == old(values) && revision == old(revision)
    {
      if ids == [] {
        return Ok([]);
      }
      var n := |ids|;
      var base := Quotient(amount, n);
      var remainder := Remainder(amount, n);
      var changes: seq<Change> := [];
      for i := 0 to n
        invariant Signum(remainder) == Signum(Remainder(amount, n)) || remainder == 0
        invariant rule == InOrder ==> Magnitude(remainder) == Max(0, Magnitude(Remainder(amount, n)) - i)
        invariant rule == EqualShares ==> remainder == Remainder(amount, n)
        invariant DistributeChanges(values, ids, month, amount, rule, i) == Ok(changes)
        invariant values == old(values) && revision == old(revision)
      {
        var extra := 0;
        if rule == InOrder && remainder != 0 {
          extra := Signum(remainder);
          remainder := remainder - extra;
        }
        assert base + extra == Share(rule, amount, n, i);
        ShareIsMoney(rule, amount, n, i);
        var value := CheckedAdd(Get(values, (ids[i], month)), base + extra);
        if value.Err? {
          FailedPrefix(values, ids, month, amount, rule, i + 1, n);
          return Err(value.error);
        }
        changes := changes + [((ids[i], month), value.value)];
      }
      var undo := Apply(changes);
      return Ok(undo);
    }

    /** All checks come before the first write. */
    method ApplyPreview(preview: Preview) returns (r: Result<Undo, MoneyError>)
      modifies this
      ensures var changes := PreviewChanges(old(values), old(revision), preview);
              if changes.Ok? then
                && values == ApplyAll(old(values), changes.value)
                && r == Ok(UndoRecord(old(values), changes.value))
                && revision == NextRevision(old(revision))
              else r == Err(changes.error) && values == old(values) && revision == old(revision)
    {
      if preview.sourceRevision != revision {
        return Err(Invalid);
      }
      var changes: seq<Change> := [];
      var total: Money := 0;
      for i := 0 to |preview.changes|
        invariant CheckPreview(values, preview, i) == Ok((changes, total))
        invariant values == old(values) && revision == old(revision)
      {
        var change := preview.changes[i];
        var cell := (change.categoryId, preview.month);
        var step := CheckPreview(values, preview, i + 1);
        if step.Err? {
          FailedCheck(values, preview, i + 1, |preview.changes|);
        }
        if Get(values, cell) != change.before {
          return Err(Invalid);
        }
        total :- CheckedAdd(total, change.delta);
        var after :- CheckedAdd(change.before, change.delta);
        if after != change.after {
          return Err(Invalid);
        }
        changes := changes + [(cell, change.after)];
      }
      if total != preview.totalAssignment {
        return Err(Invalid);
      }
      var undo := Apply(changes);
      return Ok(undo);
    }
  }
}
