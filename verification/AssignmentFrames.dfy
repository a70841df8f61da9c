/** When assignment commands are accepted and which cells they change (`src/service/assignment_service.rs`, lines 70-187). */
module AssignmentFrames {
  import opened Wrappers
  import opened Cents
  import opened Entities
  import opened Assignments

  /** A command raises the revision by one until the last one. */
  lemma RevisionGrows(revision: Revision)
    ensures NextRevision(revision) == Min(revision + 1, 0xffff_ffff_ffff_ffff)
  {
  }

  lemma {:induction false} WrittenLast(values: Values, changes: seq<Change>, i: nat)
    requires i < |changes| && forall j :: i < j < |changes| ==> changes[j].0 != changes[i].0
    ensures Get(ApplyAll(values, changes), changes[i].0) == changes[i].1
    ensures changes[i].0 in ApplyAll(values, changes) <==> changes[i].1 != 0
  {
    if i < |changes| - 1 {
      WrittenLast(values, changes[..|changes| - 1], i);
    }
  }

  /** A command leaves in each cell what it wrote there last, a zero as no entry, and every other cell as it was. */
  lemma {:induction false} CommandWrites(values: Values, changes: seq<Change>)
    ensures var after := ApplyAll(values, changes);
            && (forall i :: 0 <= i < |changes| && (forall j :: i < j < |changes| ==> changes[j].0 != changes[i].0) ==>
                  && Get(after, changes[i].0) == changes[i].1
                  && (changes[i].0 in after <==> changes[i].1 != 0))
            && (forall cell :: (forall i :: 0 <= i < |changes| ==> changes[i].0 != cell) ==>
                  && (cell in after <==> cell in values) && (cell in values ==> after[cell] == values[cell]))
  {
    var after := ApplyAll(values, changes);
    forall i | 0 <= i < |changes| && (forall j :: i < j < |changes| ==> changes[j].0 != changes[i].0)
      ensures Get(after, changes[i].0) == changes[i].1 && (changes[i].0 in after <==> changes[i].1 != 0)
    {
      WrittenLast(values, changes, i);
    }
    forall cell | forall i :: 0 <= i < |changes| ==> changes[i].0 != cell
      ensures (cell in after <==> cell in values) && (cell in values ==> after[cell] == values[cell])
    {
      ApplyLeavesOthers(values, changes, cell);
      assert Lookup(after, cell) == Lookup(values, cell);
    }
  }

  /** A move is refused, as an overflow, exactly when one of the two new amounts has no 64-bit value; it writes these two cells. */
  lemma MoveAccepted(values: Values, source: CategoryId, target: CategoryId, month: Month, amount: Money)
    ensures var r := MoveChanges(values, source, target, month, amount);
            var left, right := Get(values, (source, month)) - amount, Get(values, (target, month)) + amount;
            && (r.Ok? <==> InRange(left) && InRange(right))
            && (r.Err? ==> r.error == Overflow)
            && (r.Ok? ==> |r.value| == 2 && r.value[0] == ((source, month), left) && r.value[1] == ((target, month), right))
  {
  }

  /** A distribution is refused exactly when a category's share has no room. */
  lemma {:induction false} DistributionAccepted(values: Values, ids: seq<CategoryId>, month: Month, amount: Money,
                                                rule: DistributionRule, upTo: nat)
    requires upTo <= |ids|
    ensures var r := DistributeChanges(values, ids, month, amount, rule, upTo);
            && (r.Ok? <==> forall i :: 0 <= i < upTo ==> InRange(Get(values, (ids[i], month)) + Share(rule, amount, |ids|, i)))
            && (r.Err? ==> r.error == Overflow)
  {
    hide Share;
    if upTo > 0 {
      DistributionAccepted(values, ids, month, amount, rule, upTo - 1);
    }
  }

  function SumOfDeltas(changes: seq<AssignmentChange>): int {
    if changes == [] then 0 else SumOfDeltas(changes[..|changes| - 1]) + changes[|changes| - 1].delta
  }

  /** One stated change fits what is assigned now and adds up. */
  predicate FitsNow(values: Values, month: Month, change: AssignmentChange) {
    && Get(values, (change.categoryId, month)) == change.before
    && change.before + change.delta == change.after
  }

  lemma CheckedStep(values: Values, preview: Preview, upTo: nat)
    requires 0 < upTo <= |preview.changes| && CheckPreview(values, preview, upTo - 1).Ok?
    ensures var r, before := CheckPreview(values, preview, upTo), CheckPreview(values, preview, upTo - 1).value.1;
            var change := preview.changes[upTo - 1];
            && (r.Ok? <==> FitsNow(values, preview.month, change) && InRange(before + change.delta))
            && (r.Ok? ==> r.value.1 == before + change.delta)
  {
  }

  lemma {:induction false} CheckedExactly(values: Values, preview: Preview, upTo: nat)
    requires upTo <= |preview.changes|
    ensures var r := CheckPreview(values, preview, upTo);
            && (r.Ok? <==>
                  && (forall i :: 0 <= i < upTo ==> FitsNow(values, preview.month, preview.changes[i]))
                  && (forall k :: 0 <= k <= upTo ==> InRange(SumOfDeltas(preview.changes[..k]))))
            && (r.Ok? ==> r.value.1 == SumOfDeltas(preview.changes[..upTo]))
  {
    if upTo > 0 {
      CheckedExactly(values, preview, upTo - 1);
      assert preview.changes[..upTo][..upTo - 1] == preview.changes[..upTo - 1];
      hide FitsNow, Get;
      if CheckPreview(values, preview, upTo - 1).Ok? {
        CheckedStep(values, preview, upTo);
      }
    }
  }

  /**
   A preview is accepted exactly at its own revision, when every change fits what is assigned now,
   no sum on the way leaves 64 bits, and the stated total is the sum of the changes.
   */
  lemma {:induction false} PreviewAccepted(values: Values, revision: Revision, preview: Preview)
    ensures PreviewChanges(values, revision, preview).Ok?
       <==> && preview.sourceRevision == revision
            && (forall i :: 0 <= i < |preview.changes| ==> FitsNow(values, preview.month, preview.changes[i]))
            && (forall k :: 0 <= k <= |preview.changes| ==> InRange(SumOfDeltas(preview.changes[..k])))
            && preview.totalAssignment == SumOfDeltas(preview.changes)
  {
    hide CheckPreview, FitsNow, SumOfDeltas;
    CheckedExactly(values, preview, |preview.changes|);
    assert preview.changes[..|preview.changes|] == preview.changes;
  }
}
