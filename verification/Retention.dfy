/** Which backups a retention pass keeps (`src/service/backup_service.rs`, lines 292-360). */
module Retention {
  import opened Calendar

  type Path = nat

  /** `createdAt` counts nanoseconds; `day` is the date of that instant in its own time zone. */
  datatype Backup = Backup(database: Path, createdAt: int, day: Date, manualOrPreOperation: bool) {
    function MonthOf(): (int, int) {
      (day.year, day.month)
    }
  }

  const DAY := 86_400_000_000_000
  const MANUAL_LIMIT := 10

  datatype Buckets = Buckets(keep: set<Path>, manualCount: nat, daily: set<Date>, monthly: set<(int, int)>)

  datatype Decision = AlreadyKept | ManualBucket | DailyBucket | MonthlyBucket | Dropped

  predicate InDailyWindow(now: int, b: Backup) {
    b.createdAt >= now - 30 * DAY
  }

  predicate InMonthlyWindow(now: int, b: Backup) {
    b.createdAt >= now - 366 * DAY
  }

  /** The first bucket that takes the backup. */
  function Decide(now: int, buckets: Buckets, b: Backup): Decision {
    if b.database in buckets.keep then AlreadyKept
    else if b.manualOrPreOperation && buckets.manualCount < MANUAL_LIMIT then ManualBucket
    else if InDailyWindow(now, b) && b.day !in buckets.daily then DailyBucket
    else if InMonthlyWindow(now, b) && b.MonthOf() !in buckets.monthly then MonthlyBucket
    else Dropped
  }

  function Step(now: int, buckets: Buckets, b: Backup): Buckets {
    match Decide(now, buckets, b)
    case AlreadyKept => buckets
    case ManualBucket => buckets.(keep := buckets.keep + {b.database}, manualCount := buckets.manualCount + 1)
    case DailyBucket => buckets.(keep := buckets.keep + {b.database}, daily := buckets.daily + {b.day})
    case MonthlyBucket => buckets.(keep := buckets.keep + {b.database}, monthly := buckets.monthly + {b.MonthOf()})
    case Dropped => buckets
  }

  function Opening(valid: seq<Backup>): Buckets
    requires valid != []
  {
    Buckets({valid[0].database}, 0, {}, {})
  }

  /** The buckets before backup `i` is looked at. */
  function At(valid: seq<Backup>, i: nat): Buckets
    requires valid != [] && i <= |valid|
  {
    if i == 0 then Opening(valid) else Step(valid[0].createdAt, At(valid, i - 1), valid[i - 1])
  }

  function DecisionFor(valid: seq<Backup>, i: nat): Decision
    requires i < |valid|
  {
    Decide(valid[0].createdAt, At(valid, i), valid[i])
  }

  function Kept(valid: seq<Backup>): set<Path>
    requires valid != []
  {
    At(valid, |valid|).keep
  }

  /** The databases deleted from the first `upTo` backups, in order. */
  function Outside(valid: seq<Backup>, keep: set<Path>, upTo: nat): seq<Path>
    requires upTo <= |valid|
  {
    if upTo <= 1 then []
    else
      Outside(valid, keep, upTo - 1)
      + if valid[upTo - 1].database in keep then [] else [valid[upTo - 1].database]
  }

  function Removed(valid: seq<Backup>): seq<Path> {
    if |valid| < 2 then [] else Outside(valid, Kept(valid), |valid|)
  }

  /** The decision loop over the valid backups, newest first, and the deletion loop after it. */
  method ApplyRetention(valid: seq<Backup>) returns (removed: seq<Path>)
    ensures removed == Removed(valid)
  {
    if |valid| < 2 {
      return [];
    }
    var keep: set<Path> := {valid[0].database};
    var manualCount := 0;
    var now := valid[0].createdAt;
    var daily: set<Date> := {};
    var monthly: set<(int, int)> := {};
    for i := 0 to |valid|
      invariant At(valid, i) == Buckets(keep, manualCount, daily, monthly)
    {
      var b := valid[i];
      if b.database !in keep {
        if b.manualOrPreOperation && manualCount < MANUAL_LIMIT {
          manualCount := manualCount + 1;
          keep := keep + {b.database};
        } else if InDailyWindow(now, b) && b.day !in daily {
          daily := daily + {b.day};
          keep := keep + {b.database};
        } else if InMonthlyWindow(now, b) && b.MonthOf() !in monthly {
          monthly := monthly + {b.MonthOf()};
          keep := keep + {b.database};
        }
      }
    }
    removed := [];
    for i := 1 to |valid|
      invariant removed == Outside(valid, keep, i)
    {
      if valid[i].database !in keep {
        removed := removed + [valid[i].database];
      }
    }
  }

  // ----- What is kept and what covers the rest ------------------------------------------------

  /** How many of the first `i` backups took a manual slot. */
  function ManualBefore(valid: seq<Backup>, i: nat): nat
    requires valid != [] && i <= |valid|
  {
    if i == 0 then 0 else ManualBefore(valid, i - 1) + if DecisionFor(valid, i - 1) == ManualBucket then 1 else 0
  }

  predicate Fills(valid: seq<Backup>, j: nat, decision: Decision)
    requires valid != []
  {
    j < |valid| && DecisionFor(valid, j) == decision
  }

  /** The backups among the first `i` that took a manual slot. */
  function ManualTaken(valid: seq<Backup>, i: nat): set<nat>
    requires valid != [] && i <= |valid|
  {
    set j: nat | j < i && Fills(valid, j, ManualBucket)
  }

  lemma FillsIsDecision(valid: seq<Backup>, j: nat)
    requires j < |valid|
    ensures forall d :: Fills(valid, j, d) <==> DecisionFor(valid, j) == d
  {
  }

  lemma {:induction false} ManualTakenCount(valid: seq<Backup>, i: nat)
    requires valid != [] && i <= |valid|
    ensures |ManualTaken(valid, i)| == ManualBefore(valid, i)
  {
    hide Fills;
    if i > 0 {
      ManualTakenCount(valid, i - 1);
      var before := ManualTaken(valid, i - 1);
      assert Fills(valid, i - 1, ManualBucket) <==> DecisionFor(valid, i - 1) == ManualBucket by {
        FillsIsDecision(valid, i - 1);
      }
      assert ManualTaken(valid, i) == if Fills(valid, i - 1, ManualBucket) then before + {i - 1} else before;
    }
  }

  lemma {:induction false} ManualSlots(valid: seq<Backup>, i: nat)
    requires valid != [] && i <= |valid|
    ensures At(valid, i).manualCount == ManualBefore(valid, i) <= MANUAL_LIMIT
  {
    if i > 0 {
      ManualSlots(valid, i - 1);
    }
  }

  lemma {:induction false} DailySlots(valid: seq<Backup>, i: nat)
    requires valid != [] && i <= |valid|
    ensures forall d :: d in At(valid, i).daily <==> exists j :: 0 <= j < i && Fills(valid, j, DailyBucket) && valid[j].day == d
  {
    if i > 0 {
      DailySlots(valid, i - 1);
      forall d
        ensures d in At(valid, i).daily <==> exists j :: 0 <= j < i && Fills(valid, j, DailyBucket) && valid[j].day == d
      {
        if d in At(valid, i).daily && d !in At(valid, i - 1).daily {
          assert Fills(valid, i - 1, DailyBucket) && valid[i - 1].day == d;
        }
      }
    }
  }

  lemma {:induction false} MonthlySlots(valid: seq<Backup>, i: nat)
    requires valid != [] && i <= |valid|
    ensures forall m :: m in At(valid, i).monthly <==>
              exists j :: 0 <= j < i && Fills(valid, j, MonthlyBucket) && valid[j].MonthOf() == m
  {
    if i > 0 {
      MonthlySlots(valid, i - 1);
      forall m
        ensures m in At(valid, i).monthly <==>
                exists j :: 0 <= j < i && Fills(valid, j, MonthlyBucket) && valid[j].MonthOf() == m
      {
        if m in At(valid, i).monthly && m !in At(valid, i - 1).monthly {
          assert Fills(valid, i - 1, MonthlyBucket) && valid[i - 1].MonthOf() == m;
        }
      }
    }
  }

  /** Every slot in use was taken by one of the backups seen so far. */
  lemma {:induction false} SlotsAreFilled(valid: seq<Backup>, i: nat)
    requires valid != [] && i <= |valid|
    ensures At(valid, i).manualCount == ManualBefore(valid, i) <= MANUAL_LIMIT
    ensures forall d :: d in At(valid, i).daily <==> exists j :: 0 <= j < i && Fills(valid, j, DailyBucket) && valid[j].day == d
    ensures forall m :: m in At(valid, i).monthly <==>
              exists j :: 0 <= j < i && Fills(valid, j, MonthlyBucket) && valid[j].MonthOf() == m
  {
    ManualSlots(valid, i);
    DailySlots(valid, i);
    MonthlySlots(valid, i);
  }

  lemma {:induction false} KeepGrows(valid: seq<Backup>, i: nat, later: nat)
    requires valid != [] && i <= later <= |valid|
    ensures At(valid, i).keep <= At(valid, later).keep
    decreases later
  {
    if i < later {
      KeepGrows(valid, i, later - 1);
    }
  }

  lemma {:induction false} RemovedAreOutside(valid: seq<Backup>, keep: set<Path>, upTo: nat, p: Path)
    requires upTo <= |valid|
    ensures p in Outside(valid, keep, upTo) <==> p !in keep && exists i :: 1 <= i < upTo && valid[i].database == p
  {
    if upTo > 1 {
      RemovedAreOutside(valid, keep, upTo - 1, p);
      if p !in keep && valid[upTo - 1].database == p {
        assert 1 <= upTo - 1 < upTo;
      }
    }
  }

  /** The newest backup is always kept. */
  lemma NewestIsKept(valid: seq<Backup>)
    requires valid != []
    ensures valid[0].database in Kept(valid) && valid[0].database !in Removed(valid)
  {
    KeepGrows(valid, 0, |valid|);
    if |valid| >= 2 {
      RemovedAreOutside(valid, Kept(valid), |valid|, valid[0].database);
    }
  }

  /** A backup that some bucket took is kept. */
  lemma BucketsKeep(valid: seq<Backup>, j: nat)
    requires j < |valid| && DecisionFor(valid, j) != Dropped
    ensures valid[j].database in Kept(valid)
  {
    KeepGrows(valid, j + 1, |valid|);
  }

  /**
   Every removed backup is covered. If it is manual, ten kept manual backups before it took all the
   manual slots; if it is in the daily window, a kept backup before it fills its day; if it is
   in the monthly window, a kept backup before it fills its month.
   */
  lemma RemovedIsCovered(valid: seq<Backup>, i: nat)
    requires i < |valid| && valid[i].database in Removed(valid)
    ensures valid[i].manualOrPreOperation ==>
              && |ManualTaken(valid, i)| == MANUAL_LIMIT
              && forall j :: j in ManualTaken(valid, i) ==>
                   j < i && valid[j].manualOrPreOperation && valid[j].database in Kept(valid)
    ensures InDailyWindow(valid[0].createdAt, valid[i]) ==>
              exists j :: 0 <= j < i && Fills(valid, j, DailyBucket) && valid[j].day == valid[i].day
                          && valid[j].database in Kept(valid)
    ensures InMonthlyWindow(valid[0].createdAt, valid[i]) ==>
              exists j :: 0 <= j < i && Fills(valid, j, MonthlyBucket) && valid[j].MonthOf() == valid[i].MonthOf()
                          && valid[j].database in Kept(valid)
  {
    RemovedAreOutside(valid, Kept(valid), |valid|, valid[i].database);
    if DecisionFor(valid, i) != Dropped {
      BucketsKeep(valid, i);
      assert false;
    }
    SlotsAreFilled(valid, i);
    ManualTakenCount(valid, i);
    forall j | j in ManualTaken(valid, i)
      ensures j < i && valid[j].manualOrPreOperation && valid[j].database in Kept(valid)
    {
      BucketsKeep(valid, j);
    }
    if InDailyWindow(valid[0].createdAt, valid[i]) {
      var j :| 0 <= j < i && Fills(valid, j, DailyBucket) && valid[j].day == valid[i].day;
      BucketsKeep(valid, j);
    }
    if InMonthlyWindow(valid[0].createdAt, valid[i]) {
      var j :| 0 <= j < i && Fills(valid, j, MonthlyBucket) && valid[j].MonthOf() == valid[i].MonthOf();
      BucketsKeep(valid, j);
    }
  }

  predicate TookSlot(valid: seq<Backup>, j: nat)
    requires j < |valid|
  {
    DecisionFor(valid, j) == ManualBucket || DecisionFor(valid, j) == DailyBucket || DecisionFor(valid, j) == MonthlyBucket
  }

  /**
   No database takes two slots, no day has two daily backups, no month two monthly ones, and the
   newest backup takes no slot at all.
   */
  lemma SlotsAreExclusive(valid: seq<Backup>, i: nat, j: nat)
    requires i < j < |valid| && TookSlot(valid, j)
    ensures !(TookSlot(valid, i) && valid[i].database == valid[j].database)
    ensures !(Fills(valid, i, DailyBucket) && Fills(valid, j, DailyBucket) && valid[i].day == valid[j].day)
    ensures !(Fills(valid, i, MonthlyBucket) && Fills(valid, j, MonthlyBucket) && valid[i].MonthOf() == valid[j].MonthOf())
    ensures valid[j].database != valid[0].database
  {
    KeepGrows(valid, i + 1, j);
    KeepGrows(valid, 0, j);
    SlotsAreFilled(valid, j);
  }

  // ----- Running again ------------------------------------------------------------------------

  function Fold(now: int, buckets: Buckets, rest: seq<Backup>): Buckets
    decreases |rest|
  {
    if rest == [] then buckets else Fold(now, Step(now, buckets, rest[0]), rest[1..])
  }

  lemma {:induction false} FoldFrom(valid: seq<Backup>, i: nat)
    requires valid != [] && i <= |valid|
    ensures Fold(valid[0].createdAt, At(valid, i), valid[i..]) == At(valid, |valid|)
    decreases |valid| - i
  {
    if i < |valid| {
      FoldFrom(valid, i + 1);
      assert valid[i..][1..] == valid[i + 1..];
    }
  }

  /** The backups whose database is kept, in the same order. */
  function Survivors(backups: seq<Backup>, keep: set<Path>): seq<Backup> {
    if backups == [] then []
    else (if backups[0].database in keep then [backups[0]] else []) + Survivors(backups[1..], keep)
  }

  lemma {:induction false} FoldGrows(now: int, buckets: Buckets, rest: seq<Backup>)
    ensures buckets.keep <= Fold(now, buckets, rest).keep
    decreases |rest|
  {
    if rest != [] {
      FoldGrows(now, Step(now, buckets, rest[0]), rest[1..]);
    }
  }

  lemma {:induction false} FoldOfSurvivors(now: int, buckets: Buckets, rest: seq<Backup>)
    ensures var final := Fold(now, buckets, rest); Fold(now, buckets, Survivors(rest, final.keep)) == final
    decreases |rest|
  {
    if rest != [] {
      var final := Fold(now, buckets, rest);
      var next := Step(now, buckets, rest[0]);
      FoldOfSurvivors(now, next, rest[1..]);
      var others := Survivors(rest[1..], final.keep);
      if rest[0].database in final.keep {
        assert Survivors(rest, final.keep) == [rest[0]] + others;
        assert ([rest[0]] + others)[1..] == others;
      } else {
        FoldGrows(now, next, rest[1..]);
        assert next == buckets;
        assert Survivors(rest, final.keep) == others;
      }
    }
  }

  lemma {:induction false} SurvivorsAreKept(backups: seq<Backup>, keep: set<Path>)
    ensures forall i :: 0 <= i < |Survivors(backups, keep)| ==> Survivors(backups, keep)[i].database in keep
  {
    if backups != [] {
      SurvivorsAreKept(backups[1..], keep);
    }
  }

  /** Running retention on what it kept, in the same order, removes nothing. */
  lemma RetentionIsIdempotent(valid: seq<Backup>)
    requires valid != []
    ensures Removed(Survivors(valid, Kept(valid))) == []
  {
    var kept := Survivors(valid, Kept(valid));
    var now := valid[0].createdAt;
    assert valid[0..] == valid;
    FoldFrom(valid, 0);
    NewestIsKept(valid);
    assert kept[0] == valid[0];
    FoldOfSurvivors(now, Opening(valid), valid);
    assert kept[0..] == kept;
    FoldFrom(kept, 0);
    assert Kept(kept) == Kept(valid);
    SurvivorsAreKept(valid, Kept(valid));
    if Removed(kept) != [] {
      var p := Removed(kept)[0];
      RemovedAreOutside(kept, Kept(kept), |kept|, p);
    }
  }
}
