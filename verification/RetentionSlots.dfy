/** Which backup takes which slot, and which backups stay (`src/service/backup_service.rs`, lines 300-360). */
module RetentionSlots {
  import opened Calendar
  import opened Retention

  /** The database of backup `i` is the newest one or has already been kept for another backup. */
  predicate KeptEarlier(valid: seq<Backup>, i: nat)
    requires i < |valid|
  {
    valid[i].database == valid[0].database || exists j :: 0 <= j < i && TookSlot(valid, j) && valid[j].database == valid[i].database
  }

  lemma {:induction false} KeepIs(valid: seq<Backup>, i: nat, p: Path)
    requires valid != [] && i <= |valid|
    ensures p in At(valid, i).keep
       <==> p == valid[0].database || exists j :: 0 <= j < i && TookSlot(valid, j) && valid[j].database == p
  {
    if i > 0 {
      KeepIs(valid, i - 1, p);
      assert TookSlot(valid, i - 1) || DecisionFor(valid, i - 1) == AlreadyKept || DecisionFor(valid, i - 1) == Dropped;
      if p in At(valid, i).keep && p !in At(valid, i - 1).keep {
        assert TookSlot(valid, i - 1) && valid[i - 1].database == p;
      }
      if TookSlot(valid, i - 1) && valid[i - 1].database == p {
        assert p in At(valid, i).keep;
      }
    }
  }

  /**
   The slots, newest backup first. A backup whose database is not kept yet takes a manual slot if it
   is manual and fewer than ten are taken; otherwise the slot of its day if it is at most thirty days
   older than the newest one and the day's is free; otherwise the slot of its month if it is at most
   366 days older and the month's is free.
   */
  lemma {:induction false} SlotsExactly(valid: seq<Backup>, i: nat)
    requires i < |valid|
    ensures var b, age := valid[i], valid[0].createdAt - valid[i].createdAt;
            var manual := b.manualOrPreOperation && |ManualTaken(valid, i)| < 10;
            var daily := age <= 2_592_000_000_000_000
                         && !exists j :: 0 <= j < i && Fills(valid, j, DailyBucket) && valid[j].day == b.day;
            var monthly := age <= 31_622_400_000_000_000
                           && !exists j :: 0 <= j < i && Fills(valid, j, MonthlyBucket)
                                           && valid[j].day.year == b.day.year && valid[j].day.month == b.day.month;
            && (Fills(valid, i, AlreadyKept) <==> KeptEarlier(valid, i))
            && (Fills(valid, i, ManualBucket) <==> !KeptEarlier(valid, i) && manual)
            && (Fills(valid, i, DailyBucket) <==> !KeptEarlier(valid, i) && !manual && daily)
            && (Fills(valid, i, MonthlyBucket) <==> !KeptEarlier(valid, i) && !manual && !daily && monthly)
  {
    KeepIs(valid, i, valid[i].database);
    SlotsAreFilled(valid, i);
    ManualTakenCount(valid, i);
    forall j | 0 <= j < i
      ensures valid[j].MonthOf() == valid[i].MonthOf()
         <==> valid[j].day.year == valid[i].day.year && valid[j].day.month == valid[i].day.month
    {
    }
    hide At, ManualTaken, KeptEarlier;
  }

  /** The databases that stay are the newest one and those that took a slot; with two backups or more all others go. */
  lemma {:induction false} StaysExactly(valid: seq<Backup>, p: Path)
    requires valid != []
    ensures p in Removed(valid)
       <==> && |valid| >= 2 && p != valid[0].database
            && (exists i :: 1 <= i < |valid| && valid[i].database == p)
            && !exists i :: 0 <= i < |valid| && TookSlot(valid, i) && valid[i].database == p
  {
    hide TookSlot;
    KeepIs(valid, |valid|, p);
    if |valid| >= 2 {
      RemovedAreOutside(valid, Kept(valid), |valid|, p);
    }
  }

  lemma OneMoreOutside(valid: seq<Backup>, keep: set<Path>, upTo: nat)
    requires 1 < upTo <= |valid|
    ensures Outside(valid, keep, upTo)
         == Outside(valid, keep, upTo - 1) + if valid[upTo - 1].database in keep then [] else [valid[upTo - 1].database]
  {
  }

  /** The removed databases are those of the backups that are not kept, in the order of the backups. */
  lemma {:induction false} RemovedInOrder(valid: seq<Backup>, keep: set<Path>, upTo: nat) returns (at: seq<nat>)
    requires upTo <= |valid|
    ensures |at| == |Outside(valid, keep, upTo)|
    ensures forall k :: 0 <= k < |at| ==> 1 <= at[k] < upTo && Outside(valid, keep, upTo)[k] == valid[at[k]].database
    ensures forall k, l :: 0 <= k < l < |at| ==> at[k] < at[l]
    ensures forall i :: i in at <==> 1 <= i < upTo && valid[i].database !in keep
  {
    at := [];
    if upTo > 1 {
      var n := upTo - 1;
      var before := RemovedInOrder(valid, keep, n);
      var earlier, out := Outside(valid, keep, n), Outside(valid, keep, upTo);
      hide Outside;
      assert out == earlier + if valid[n].database in keep then [] else [valid[n].database] by { OneMoreOutside(valid, keep, upTo); }
      if valid[n].database in keep {
        at := before;
        assert out == earlier;
      } else {
        at := before + [n];
      }
    }
  }
}
