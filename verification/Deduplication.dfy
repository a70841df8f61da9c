/** Ranking an imported row against existing ones (`src/importing/deduplication.rs`, lines 79-235). */
module Deduplication {
  import opened Wrappers
  import opened Cents
  import opened EditDistance

  datatype Classification =
    | New
    | ExactImportIdDuplicate
    | StrongDateAmountPayeeMatch
    | PossibleManualMatch
    | AccountMismatch
    | AmbiguousMatch

  /** Payees are normalised, days are Julian day numbers, fingerprints are hashes. */
  datatype Record = Record(
    accountKey: string,
    fitid: Option<string>,
    sourceIdentifier: Option<string>,
    fingerprint: string,
    day: int,
    amount: Money,
    payee: string)

  datatype Suggestion = Suggestion(index: nat, kind: Classification)

  datatype Verdict = Verdict(kind: Classification, matched: Option<nat>)

  function Rank(c: Classification): nat {
    match c
    case ExactImportIdDuplicate => 0
    case AccountMismatch => 1
    case StrongDateAmountPayeeMatch => 2
    case PossibleManualMatch => 3
    case AmbiguousMatch => 4
    case New => 5
  }

  function OnAccount(candidate: Record, existing: Record, kind: Classification): Classification {
    if existing.accountKey == candidate.accountKey then kind else AccountMismatch
  }

  /** The four sources of suggestions, each for one existing row. */
  function ByFitid(candidate: Record, e: Record): Option<Classification> {
    if candidate.fitid.Some? && e.fitid == candidate.fitid then Some(OnAccount(candidate, e, ExactImportIdDuplicate))
    else None
  }

  function BySourceIdentifier(candidate: Record, e: Record): Option<Classification> {
    if candidate.sourceIdentifier.Some? && e.sourceIdentifier == candidate.sourceIdentifier then
      Some(OnAccount(candidate, e, ExactImportIdDuplicate))
    else None
  }

  function ByFingerprint(candidate: Record, e: Record): Option<Classification> {
    if e.fingerprint == candidate.fingerprint then Some(ExactImportIdDuplicate) else None
  }

  function ByLikeness(candidate: Record, e: Record): Option<Classification> {
    var days := Magnitude(e.day - candidate.day);
    if e.amount != candidate.amount then None
    else if days <= 1 && SimilarAtLeast(candidate.payee, e.payee, 92) then
      Some(OnAccount(candidate, e, StrongDateAmountPayeeMatch))
    else if days <= 3 && SimilarAtLeast(candidate.payee, e.payee, 80) then
      Some(OnAccount(candidate, e, PossibleManualMatch))
    else None
  }

  type Source = (Record, Record) -> Option<Classification>

  /** What one pass over the existing rows pushes. */
  function Pass(source: Source, candidate: Record, existing: seq<Record>): seq<Suggestion> {
    if existing == [] then []
    else
      var last := |existing| - 1;
      var before := Pass(source, candidate, existing[..last]);
      match source(candidate, existing[last])
      case None => before
      case Some(kind) => before + [Suggestion(last, kind)]
  }

  function Suggestions(candidate: Record, existing: seq<Record>): seq<Suggestion> {
    Pass(ByFitid, candidate, existing) + Pass(BySourceIdentifier, candidate, existing)
    + Pass(ByFingerprint, candidate, existing) + Pass(ByLikeness, candidate, existing)
  }

  predicate Ordered(a: Suggestion, b: Suggestion) {
    Rank(a.kind) < Rank(b.kind) || (Rank(a.kind) == Rank(b.kind) && a.index <= b.index)
  }

  function InsertSorted(s: seq<Suggestion>, x: Suggestion): seq<Suggestion> {
    if s == [] || Ordered(s[|s| - 1], x) then s + [x]
    else InsertSorted(s[..|s| - 1], x) + [s[|s| - 1]]
  }

  /** A stable sort by rank and then by row, as the library sort with that comparison. */
  function Sorted(s: seq<Suggestion>): seq<Suggestion> {
    if s == [] then [] else InsertSorted(Sorted(s[..|s| - 1]), s[|s| - 1])
  }

  function Decide(sorted: seq<Suggestion>): Verdict {
    if sorted == [] then Verdict(New, None)
    else if |sorted| > 1 && Rank(sorted[0].kind) == Rank(sorted[1].kind) then
      Verdict(AmbiguousMatch, Some(sorted[0].index))
    else Verdict(sorted[0].kind, Some(sorted[0].index))
  }

  method PushPass(suggestions: seq<Suggestion>, source: Source, candidate: Record, existing: seq<Record>)
    returns (r: seq<Suggestion>)
    ensures r == suggestions + Pass(source, candidate, existing)
  {
    r := suggestions;
    for i := 0 to |existing|
      invariant r == suggestions + Pass(source, candidate, existing[..i])
    {
      assert existing[..i + 1][..i] == existing[..i];
      match source(candidate, existing[i])
      case None =>
      case Some(kind) => r := r + [Suggestion(i, kind)];
    }
    assert existing[..|existing|] == existing;
  }

  method Classify(candidate: Record, existing: seq<Record>) returns (v: Verdict)
    ensures v == Decide(Sorted(Suggestions(candidate, existing)))
  {
    hide Pass, Sorted, Decide;
    var suggestions := PushPass([], ByFitid, candidate, existing);
    suggestions := PushPass(suggestions, BySourceIdentifier, candidate, existing);
    suggestions := PushPass(suggestions, ByFingerprint, candidate, existing);
    suggestions := PushPass(suggestions, ByLikeness, candidate, existing);
    assert suggestions == Suggestions(candidate, existing);
    v := Decide(Sorted(suggestions));
  }

  // ----- What the verdict means ---------------------------------------------------------------

  predicate IsSorted(s: seq<Suggestion>) {
    forall i, j :: 0 <= i < j < |s| ==> Ordered(s[i], s[j])
  }

  lemma OrderIsTotal(a: Suggestion, b: Suggestion, c: Suggestion)
    ensures Ordered(a, b) || Ordered(b, a)
    ensures Ordered(a, b) && Ordered(b, c) ==> Ordered(a, c)
  {
  }

  lemma {:induction false} InsertSortedSorts(s: seq<Suggestion>, x: Suggestion)
    requires IsSorted(s)
    ensures IsSorted(InsertSorted(s, x)) && multiset(InsertSorted(s, x)) == multiset(s) + multiset{x}
  {
    hide Ordered;
    if s != [] {
      var init, last := s[..|s| - 1], s[|s| - 1];
      assert s == init + [last];
      if Ordered(last, x) {
        forall i | 0 <= i < |s|
          ensures Ordered(s[i], x)
        {
          OrderIsTotal(s[i], last, x);
        }
      } else {
        InsertSortedSorts(init, x);
        var r := InsertSorted(init, x);
        forall i | 0 <= i < |r|
          ensures Ordered(r[i], last)
        {
          assert r[i] in multiset(r);
          assert r[i] == x || r[i] in init;
          OrderIsTotal(x, last, last);
        }
      }
    }
  }

  lemma {:induction false} SortedSorts(s: seq<Suggestion>)
    ensures IsSorted(Sorted(s)) && multiset(Sorted(s)) == multiset(s)
  {
    if s != [] {
      SortedSorts(s[..|s| - 1]);
      InsertSortedSorts(Sorted(s[..|s| - 1]), s[|s| - 1]);
      assert s == s[..|s| - 1] + [s[|s| - 1]];
    }
  }

  /** The number of suggestions of a rank. */
  function RankCount(s: seq<Suggestion>, rank: nat): nat {
    if s == [] then 0 else RankCount(s[..|s| - 1], rank) + if Rank(s[|s| - 1].kind) == rank then 1 else 0
  }

  lemma {:induction false} RankCountOfConcat(a: seq<Suggestion>, b: seq<Suggestion>, rank: nat)
    ensures RankCount(a + b, rank) == RankCount(a, rank) + RankCount(b, rank)
  {
    if b == [] {
      assert a + b == a;
    } else {
      assert (a + b)[..|a + b| - 1] == a + b[..|b| - 1];
      RankCountOfConcat(a, b[..|b| - 1], rank);
    }
  }

  lemma {:induction false} RankCountOfInsert(s: seq<Suggestion>, x: Suggestion, rank: nat)
    ensures RankCount(InsertSorted(s, x), rank) == RankCount(s, rank) + if Rank(x.kind) == rank then 1 else 0
  {
    if s == [] || Ordered(s[|s| - 1], x) {
      assert (s + [x])[..|s|] == s;
    } else {
      var r, last := InsertSorted(s[..|s| - 1], x), s[|s| - 1];
      RankCountOfInsert(s[..|s| - 1], x, rank);
      assert (r + [last])[..|r|] == r;
    }
  }

  lemma {:induction false} RankCountOfSorted(s: seq<Suggestion>, rank: nat)
    ensures RankCount(Sorted(s), rank) == RankCount(s, rank)
  {
    if s != [] {
      RankCountOfSorted(s[..|s| - 1], rank);
      RankCountOfInsert(Sorted(s[..|s| - 1]), s[|s| - 1], rank);
    }
  }

  lemma {:induction false} NoneOfRank(s: seq<Suggestion>, rank: nat)
    ensures RankCount(s, rank) == 0 <==> forall i :: 0 <= i < |s| ==> Rank(s[i].kind) != rank
  {
    if s != [] {
      NoneOfRank(s[..|s| - 1], rank);
    }
  }

  lemma {:induction false} SortedRankCount(s: seq<Suggestion>)
    requires IsSorted(s) && s != []
    ensures RankCount(s, Rank(s[0].kind)) >= 1
    ensures RankCount(s, Rank(s[0].kind)) == 1 <==> |s| == 1 || Rank(s[1].kind) != Rank(s[0].kind)
  {
    var rank := Rank(s[0].kind);
    assert s == [s[0]] + s[1..];
    RankCountOfConcat([s[0]], s[1..], rank);
    assert [s[0]][..0] == [];
    NoneOfRank(s[1..], rank);
    if |s| > 1 && Rank(s[1].kind) == rank {
      assert s[1..][0] == s[1];
    } else {
      forall i | 0 <= i < |s[1..]| ensures Rank(s[1..][i].kind) != rank {
        assert s[1..][i] == s[i + 1];
        assert Ordered(s[1], s[i + 1]) || i == 0;
        assert Ordered(s[0], s[1]);
      }
    }
  }

  /** `rank` is the strongest rank that any suggestion has. */
  predicate Strongest(s: seq<Suggestion>, rank: nat) {
    RankCount(s, rank) > 0 && forall i :: 0 <= i < |s| ==> rank <= Rank(s[i].kind)
  }

  /**
   The verdict is New when nothing was suggested. Otherwise it points at the lowest row among the
   strongest suggestions; it names their kind when there is exactly one of them and is ambiguous
   when there are more.
   */
  lemma VerdictIsStrongest(s: seq<Suggestion>)
    ensures var v := Decide(Sorted(s));
            if s == [] then v == Verdict(New, None)
            else exists best ::
              && best in s && Strongest(s, Rank(best.kind))
              && v.matched == Some(best.index)
              && (forall other :: other in s && Rank(other.kind) == Rank(best.kind) ==> best.index <= other.index)
              && v.kind == if RankCount(s, Rank(best.kind)) == 1 then best.kind else AmbiguousMatch
  {
    var sorted := Sorted(s);
    SortedSorts(s);
    if s != [] {
      assert s[0] in multiset(s);
      assert sorted != [];
      var best := sorted[0];
      assert best in multiset(sorted);
      RankCountOfSorted(s, Rank(best.kind));
      SortedRankCount(sorted);
      forall other | other in s
        ensures Ordered(best, other)
      {
        assert other in multiset(sorted);
        var i :| 0 <= i < |sorted| && sorted[i] == other;
      }
      forall i | 0 <= i < |s| ensures Rank(best.kind) <= Rank(s[i].kind) {
        assert Ordered(best, s[i]);
      }
    }
  }

  /** How many identifiers of one existing row mark it as the same import. */
  function ExactMarks(candidate: Record, e: Record): nat {
    (if ByFitid(candidate, e) == Some(ExactImportIdDuplicate) then 1 else 0)
    + (if BySourceIdentifier(candidate, e) == Some(ExactImportIdDuplicate) then 1 else 0)
    + (if ByFingerprint(candidate, e) == Some(ExactImportIdDuplicate) then 1 else 0)
  }

  function TotalMarks(candidate: Record, existing: seq<Record>): nat {
    if existing == [] then 0
    else TotalMarks(candidate, existing[..|existing| - 1]) + ExactMarks(candidate, existing[|existing| - 1])
  }

  function SourceMarks(source: Source, candidate: Record, existing: seq<Record>): nat {
    if existing == [] then 0
    else
      SourceMarks(source, candidate, existing[..|existing| - 1])
      + if source(candidate, existing[|existing| - 1]) == Some(ExactImportIdDuplicate) then 1 else 0
  }

  lemma {:induction false} PassCount(source: Source, candidate: Record, existing: seq<Record>)
    ensures RankCount(Pass(source, candidate, existing), 0) == SourceMarks(source, candidate, existing)
  {
    if existing != [] {
      var last := |existing| - 1;
      PassCount(source, candidate, existing[..last]);
      var before := Pass(source, candidate, existing[..last]);
      match source(candidate, existing[last])
      case None =>
      case Some(kind) =>
        assert (before + [Suggestion(last, kind)])[..|before|] == before;
        assert Rank(kind) == 0 <==> kind == ExactImportIdDuplicate;
    }
  }

  lemma {:induction false} MarksBySource(candidate: Record, existing: seq<Record>)
    ensures TotalMarks(candidate, existing)
         == SourceMarks(ByFitid, candidate, existing) + SourceMarks(BySourceIdentifier, candidate, existing)
            + SourceMarks(ByFingerprint, candidate, existing)
    ensures SourceMarks(ByLikeness, candidate, existing) == 0
  {
    if existing != [] {
      MarksBySource(candidate, existing[..|existing| - 1]);
    }
  }

  lemma ExactSuggestions(candidate: Record, existing: seq<Record>)
    ensures RankCount(Suggestions(candidate, existing), 0) == TotalMarks(candidate, existing)
  {
    var a, b := Pass(ByFitid, candidate, existing), Pass(BySourceIdentifier, candidate, existing);
    var c, d := Pass(ByFingerprint, candidate, existing), Pass(ByLikeness, candidate, existing);
    RankCountOfConcat(a + b + c, d, 0);
    RankCountOfConcat(a + b, c, 0);
    RankCountOfConcat(a, b, 0);
    PassCount(ByFitid, candidate, existing);
    PassCount(BySourceIdentifier, candidate, existing);
    PassCount(ByFingerprint, candidate, existing);
    PassCount(ByLikeness, candidate, existing);
    MarksBySource(candidate, existing);
  }

  /**
   An import is reported as an exact duplicate exactly when one identifier of one existing row
   marks it. A row marked twice, by its bank id and its fingerprint say, is reported as ambiguous.
   */
  lemma ExactDuplicateNeedsOneMark(candidate: Record, existing: seq<Record>)
    ensures var v := Decide(Sorted(Suggestions(candidate, existing)));
            && (v.kind == ExactImportIdDuplicate <==> TotalMarks(candidate, existing) == 1)
            && (TotalMarks(candidate, existing) > 1 ==> v.kind == AmbiguousMatch)
  {
    hide Suggestions, Sorted, Decide, TotalMarks;
    var s := Suggestions(candidate, existing);
    ExactSuggestions(candidate, existing);
    VerdictIsStrongest(s);
    NoneOfRank(s, 0);
    if s != [] {
      var v := Decide(Sorted(s));
      var best :| best in s && Strongest(s, Rank(best.kind))
        && v.kind == if RankCount(s, Rank(best.kind)) == 1 then best.kind else AmbiguousMatch;
      if RankCount(s, 0) > 0 {
        assert Rank(best.kind) == 0;
      }
    }
  }

  lemma {:induction false} MarksOfMember(candidate: Record, existing: seq<Record>, i: nat)
    requires i < |existing|
    ensures TotalMarks(candidate, existing) >= ExactMarks(candidate, existing[i])
  {
    hide ExactMarks;
    if i < |existing| - 1 {
      MarksOfMember(candidate, existing[..|existing| - 1], i);
    }
  }

  /**
   Importing a row again that is among the existing ones, whatever else is: if the row has any
   identifier of its own, that and its contents both match the stored one.
   */
  lemma ReimportIsAmbiguous(row: Record, existing: seq<Record>)
    requires row in existing && (row.fitid.Some? || row.sourceIdentifier.Some?)
    ensures Decide(Sorted(Suggestions(row, existing))).kind == AmbiguousMatch
  {
    var i :| 0 <= i < |existing| && existing[i] == row;
    assert ExactMarks(row, row) >= 2;
    MarksOfMember(row, existing, i);
    ExactDuplicateNeedsOneMark(row, existing);
  }
}
